/**
 * Rule 10.2 of pcb/rule10_2.py: a footprint module must carry a description.
 */
module Rule10_2 {
  import opened Wrappers

  const RULE_NAME := "Rule 10.2"
  const RULE_TITLE := "Doc property contains a full description of footprint."

  /** The part of a footprint module the rule reads: its description, absent as `None`. */
  datatype Module = Module(name: string, description: Option<string>)

  /** `check`: fails (true) when the description is falsy, that is `None` or empty. */
  function Check(m: Module): (fail: bool)
    ensures fail <==> m.description == None || m.description == Some("")
  {
    match m.description
    case None => true
    case Some(d) => |d| == 0
  }

  /** `fix`: nothing can be fixed, so the module comes back unchanged whether or not it fails. */
  function Fix(m: Module): (r: Module)
    ensures r == m && (Check(r) <==> Check(m))
  {
    if Check(m) then m else m
  }
}
