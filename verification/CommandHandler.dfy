/** The executor behind the command arm. It recognises commands but runs none of them yet. */
module CommandHandler {
  import opened Ledger
  import opened Results
  import opened Text

  const SUPPORTED_COMMANDS := [
    "start", "stop", "restart", "reboot", "shutdown", "poweroff",
    "pause", "resume", "delete", "destroy", "snapshot_create", "snapshot_delete"
  ]

  function Unsupported(name: string): string {
    "agent command type '" + name + "' is unsupported"
  }

  function NotImplemented(name: string, target: string): string {
    "agent command '" + (name + "' for target '" + target) + "' is not implemented by kvm runtime yet"
  }

  /** Unicode lower-casing and JSON parsing, supplied by the platform. */
  datatype Platform = Platform(lib: Library, lower: string -> string)

  function ParsePayload(lib: Library, payload: string): Result<Json> {
    if Trim(payload) == "" then Ok(Object(map[]))
    else match lib.parse(payload)
      case Ok(json) => Ok(json)
      case Err(m) => Err("invalid command payload json: " + m)
  }

  function ExtractTarget(payload: Json): string {
    match FirstNonBlank(payload, TARGET_KEYS)
    case Some(target) => target
    case None => "unknown-target"
  }

  function ExecuteAgentCommand(p: Platform, commandType: string, payload: string): Result<string> {
    var normalized := p.lower(Trim(commandType));
    if normalized == "" then Err("agent command type is required")
    else match ParsePayload(p.lib, payload)
      case Err(m) => Err(m)
      case Ok(json) =>
        Err(if normalized !in SUPPORTED_COMMANDS then Unsupported(normalized)
            else NotImplemented(normalized, ExtractTarget(json)))
  }

  /** The parser's messages close with a position, hence not with white space. */
  ghost predicate MessagesEndTidily(lib: Library) {
    forall s :: lib.parse(s).Err? ==>
      var m := lib.parse(s).message;
      m != "" && !IsWhitespace(m[|m| - 1])
  }

  /** An outcome that the ledger stores unchanged: non-blank output, or an error without outer white space. */
  predicate StoredVerbatim(outcome: Result<string>) {
    match outcome
    case Ok(value) => Trim(value) != ""
    case Err(m) => Tidy(m)
  }

  lemma EnclosedIsTidy(first: string, middle: string, last: string)
    requires first != "" && last != "" && !IsWhitespace(first[0]) && !IsWhitespace(last[|last| - 1])
    ensures Tidy(first + middle + last)
  {
    var s := first + middle + last;
    assert s[0] == first[0] && s[|s| - 1] == last[|last| - 1];
  }

  lemma ParseFailsVerbatim(lib: Library, payload: string)
    requires MessagesEndTidily(lib)
    ensures ParsePayload(lib, payload).Err? ==> Tidy(ParsePayload(lib, payload).message)
  {
    if Trim(payload) != "" && lib.parse(payload).Err? {
      var m := lib.parse(payload).message;
      EnclosedIsTidy("invalid command payload json: ", "", m);
      assert "invalid command payload json: " + "" + m == "invalid command payload json: " + m;
    }
  }

  lemma RefusalsAreTidy(name: string, target: string)
    ensures Tidy(Unsupported(name)) && Tidy(NotImplemented(name, target))
  {
    EnclosedIsTidy("agent command type '", name, "' is unsupported");
    EnclosedIsTidy("agent command '", name + "' for target '" + target, "' is not implemented by kvm runtime yet");
  }

  /** Every command fails, and the text of its error has no outer white space for the ledger to trim. */
  lemma ExecutorFailsVerbatim(p: Platform, commandType: string, payload: string)
    requires MessagesEndTidily(p.lib)
    ensures ExecuteAgentCommand(p, commandType, payload).Err?
    ensures StoredVerbatim(ExecuteAgentCommand(p, commandType, payload))
  {
    ParseFailsVerbatim(p.lib, payload);
    var name, parsed := p.lower(Trim(commandType)), ParsePayload(p.lib, payload);
    if parsed.Ok? {
      RefusalsAreTidy(name, ExtractTarget(parsed.value));
    }
  }

  /** The target is named by the first of five fields that holds a non-blank string. */
  lemma TargetIsNamedByFirstField(json: Json, i: nat)
    requires i <= 5
    requires var keys := ["vps_id", "vm_id", "instance_id", "domain_id", "id"];
             && (forall j :: 0 <= j < i ==>
                   !(json.Object? && keys[j] in json.fields && json.fields[keys[j]].Str?
                     && Trim(json.fields[keys[j]].text) != ""))
             && (i < 5 ==> json.Object? && keys[i] in json.fields && json.fields[keys[i]].Str?
                           && Trim(json.fields[keys[i]].text) != "")
    ensures ExtractTarget(json) ==
              if i < 5 then
                var keys := ["vps_id", "vm_id", "instance_id", "domain_id", "id"];
                Trim(json.fields[keys[i]].text)
              else "unknown-target"
  {
    FirstNonBlankWins(json, TARGET_KEYS, i);
  }

  /**
   * Which error goes with which command: a blank type first, then a payload that is neither blank nor JSON, then a
   * type outside the list, and else that the command is not implemented for its target.
   */
  lemma ExecutorAnswers(p: Platform, commandType: string, payload: string)
    ensures var name := p.lower(Trim(commandType));
            var parsed := if Trim(payload) == "" then Ok(Object(map[])) else p.lib.parse(payload);
            ExecuteAgentCommand(p, commandType, payload) ==
            Err(if name == "" then "agent command type is required"
                else if parsed.Err? then "invalid command payload json: " + parsed.message
                else if name in ["start", "stop", "restart", "reboot", "shutdown", "poweroff", "pause", "resume",
                                 "delete", "destroy", "snapshot_create", "snapshot_delete"]
                then "agent command '" + name + "' for target '" + ExtractTarget(parsed.value)
                     + "' is not implemented by kvm runtime yet"
                else "agent command type '" + name + "' is unsupported")
  {
    var name := p.lower(Trim(commandType));
    var parsed := ParsePayload(p.lib, payload);
    if parsed.Ok? {
      var target := ExtractTarget(parsed.value);
      assert NotImplemented(name, target)
          == "agent command '" + name + "' for target '" + target + "' is not implemented by kvm runtime yet";
    }
  }
}
