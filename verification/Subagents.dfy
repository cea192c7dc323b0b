/** Configuration of one orchestrated subagent, as far as routing, delegation and instructions use it. */
module Subagents {
  import opened Basics
  import opened Delegation

  datatype Kind = Genie | ServingEndpoint | AppKind | Mcp | Lakebase

  datatype SubagentConfig = SubagentConfig(
    name: Name,
    kind: Kind,
    description: string,
    systemPrompt: Option<string>,
    database: Option<string>,
    authMode: AuthMode,
    dataClassification: string,
    requiresEvidence: bool,
    canDelegateTo: seq<Name>,
    acceptsDelegationsFrom: seq<Name>,
    allowedTaskIntents: seq<Name>,
    maxDelegationDepth: int)

  /** The configuration a name stands for: the last one with that name. */
  function ByName(subagents: seq<SubagentConfig>, name: Name): Option<SubagentConfig> {
    if subagents == [] then None
    else if subagents[|subagents| - 1].name == name then Some(subagents[|subagents| - 1])
    else ByName(subagents[..|subagents| - 1], name)
  }

  lemma {:induction false} ByNameIsLast(subagents: seq<SubagentConfig>, name: Name)
    ensures
      match ByName(subagents, name)
      case None => forall i :: 0 <= i < |subagents| ==> subagents[i].name != name
      case Some(a) =>
        exists i :: 0 <= i < |subagents| && subagents[i] == a && a.name == name
                    && forall j :: i < j < |subagents| ==> subagents[j].name != name
  {
    if subagents != [] && subagents[|subagents| - 1].name != name {
      ByNameIsLast(subagents[..|subagents| - 1], name);
    }
  }
}
