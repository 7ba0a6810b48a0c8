// The CNV state column added to each data row of a copy-number file: the
// rounded copy number, read as an integer, names the state.
module CnvStates {
  /** The state of a rounded copy number. */
  function CnvState(cn: int): (r: string)
    ensures r == "Normal" <==> cn == 2
    ensures r == "Deletion" <==> cn == 0
    ensures r == "Het Deletion" <==> cn == 1
    ensures r == "Duplicate" <==> cn >= 3
    ensures r == "?" <==> cn < 0
  {
    if cn == 2 then "Normal"
    else if cn == 0 then "Deletion"
    else if cn == 1 then "Het Deletion"
    else if cn >= 3 then "Duplicate"
    else "?"
  }
}
