/** What internal/testdeploy/service.go accepts as a deployment request. */
module Selectors {
  import opened Text

  const PARTYSTAR := "psl-be-partystar"
  const ROOM := "psl-be-room"

  datatype Input = Input(service: string, processes: seq<string>, skipTests: bool, keepBackups: int)

  /** [A-Za-z0-9_-] */
  predicate PlainChar(c: char) {
    'A' <= c <= 'Z' || 'a' <= c <= 'z' || '0' <= c <= '9' || c == '_' || c == '-'
  }

  /** [A-Za-z0-9_-]+ */
  predicate PlainName(s: string) {
    s != "" && forall i :: 0 <= i < |s| ==> PlainChar(s[i])
  }

  /** [A-Za-z0-9_.-]+ */
  predicate DottedName(s: string) {
    s != "" && forall i :: 0 <= i < |s| ==> PlainChar(s[i]) || s[i] == '.'
  }

  predicate PlainAfter(prefix: string, s: string) {
    HasPrefix(s, prefix) && PlainName(s[|prefix|..])
  }

  predicate DottedAfter(prefix: string, s: string) {
    HasPrefix(s, prefix) && DottedName(s[|prefix|..])
  }

  /** selectorPattern */
  predicate ValidSelector(s: string) {
    || s == "all" || s == "http" || s == "rpc"
    || DottedAfter("cmd.", s)
    || s == "go.ps_http" || s == "go.ps_rpc"
    || PlainAfter("go.ps_cmd.", s)
    || s == "room.http" || s == "room.rpc"
    || DottedAfter("room.cmd.", s)
  }

  /** validateService */
  predicate ValidService(s: string) {
    s == PARTYSTAR || s == ROOM
  }

  datatype InputError = BadService | NoProcess | BadSelector(selector: string) | BadKeep

  predicate ValidDeployment(input: Input) {
    && ValidService(input.service)
    && input.processes != []
    && (forall i :: 0 <= i < |input.processes| ==> ValidSelector(input.processes[i]))
    && 0 <= input.keepBackups <= 20
  }

  function FirstBadSelector(processes: seq<string>): (bad: Option<string>)
    ensures bad.None? <==> forall i :: 0 <= i < |processes| ==> ValidSelector(processes[i])
  {
    if processes == [] then None
    else if !ValidSelector(processes[0]) then Some(processes[0])
    else
      assert forall i :: 0 < i < |processes| ==> processes[i] == processes[1..][i - 1];
      FirstBadSelector(processes[1..])
  }

  /** What is wrong with a request, if anything. */
  function InputProblem(input: Input): Option<InputError> {
    if !ValidService(input.service) then Some(BadService)
    else if input.processes == [] then Some(NoProcess)
    else
      match FirstBadSelector(input.processes)
      case Some(selector) => Some(BadSelector(selector))
      case None => if 0 <= input.keepBackups <= 20 then None else Some(BadKeep)
  }

  lemma NoProblem(input: Input)
    ensures InputProblem(input).None? <==> ValidDeployment(input)
  {
  }

  /** validateDeployment: the first failing check decides the error. */
  method ValidateDeployment(input: Input) returns (e: Option<InputError>)
    ensures e == InputProblem(input) && (e.None? <==> ValidDeployment(input))
    ensures e == Some(BadService) <==> !ValidService(input.service)
    ensures e == Some(NoProcess) <==> ValidService(input.service) && input.processes == []
    ensures e == Some(BadKeep) <==>
        (ValidService(input.service) && input.processes != []
         && (forall i :: 0 <= i < |input.processes| ==> ValidSelector(input.processes[i]))
         && !(0 <= input.keepBackups <= 20))
    ensures e.Some? && e.value.BadSelector? ==>
        exists i :: 0 <= i < |input.processes| && input.processes[i] == e.value.selector
          && !ValidSelector(input.processes[i])
          && forall j :: 0 <= j < i ==> ValidSelector(input.processes[j])
  {
    if !ValidService(input.service) {
      return Some(BadService);
    }
    if |input.processes| == 0 {
      return Some(NoProcess);
    }
    for i := 0 to |input.processes|
      invariant forall j :: 0 <= j < i ==> ValidSelector(input.processes[j])
      invariant FirstBadSelector(input.processes) == FirstBadSelector(input.processes[i..])
    {
      assert input.processes[i..][1..] == input.processes[i + 1..];
      if !ValidSelector(input.processes[i]) {
        return Some(BadSelector(input.processes[i]));
      }
    }
    if input.keepBackups < 0 || input.keepBackups > 20 {
      return Some(BadKeep);
    }
    return None;
  }
}
