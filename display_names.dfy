/** Human-readable labels for the access points the visualiser knows by id. */
module DisplayNames {

  /** The label shown for an access-point id; unknown ids are shown as they are. */
  function MapDisplayName(servedBy: string): (shown: string)
    ensures servedBy == "AXX000004" ==> shown == "1. Obergeschoss"
    ensures servedBy == "AXX000003" ==> shown == "3. Obergeschoss"
    ensures shown == servedBy <==> servedBy != "AXX000004" && servedBy != "AXX000003"
  {
    if servedBy == "AXX000004" then "1. Obergeschoss"
    else if servedBy == "AXX000003" then "3. Obergeschoss"
    else servedBy
  }
}
