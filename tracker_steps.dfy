/**
  Tracker steps of the messaging workflow, read from a Redis hash
  (`TrackerStep::parse_from_redis`).

  The parse reads the register into a hash map, copies six required fields
  into the step one after the other (panicking at the first one missing),
  removes each from the map, and panics if anything is left over.  `id`
  is never read from the register.
 */
module TrackerSteps {
  import opened Outcomes
  import opened RedisValues

  /** The fields of a tracker step; `parse_from_redis` returns a copy of this. */
  datatype StepData = StepData(
    trackerId: string,
    timestamp: string,
    id: string,
    status: string,
    value: string,
    attachedFiles: string,
    messageReference: string)

  /** The keys the parse consumes, in the order it reads them. */
  const StepKeys: seq<string> :=
    ["value", "status", "tracker_id", "timestamp", "attached_files", "message_reference"]

  const HeadKeys: set<string> := {"value", "status", "tracker_id"}
  const TailKeys: set<string> := {"timestamp", "attached_files", "message_reference"}

  predicate HasHead(m: map<string, string>) {
    "value" in m && "status" in m && "tracker_id" in m
  }

  predicate HasTail(m: map<string, string>) {
    "timestamp" in m && "attached_files" in m && "message_reference" in m
  }

  const StepKeySet: set<string> :=
    {"value", "status", "tracker_id", "timestamp", "attached_files", "message_reference"}

  function MissingMessage(key: string): string {
    "Expected parameter " + key + " wasn't found"
  }

  const TooManyValues: string := "Found more values than expected"

  /** The first key of `StepKeys`, in reading order, that `m` lacks. */
  function Missing(m: map<string, string>): Option<string> {
    if "value" !in m then Some("value")
    else if "status" !in m then Some("status")
    else if "tracker_id" !in m then Some("tracker_id")
    else if "timestamp" !in m then Some("timestamp")
    else if "attached_files" !in m then Some("attached_files")
    else if "message_reference" !in m then Some("message_reference")
    else None
  }

  /** The map the parse reads the register into (empty when it panics first). */
  function FieldsOf(register: seq<Value>): map<string, string> {
    if AllData(register) then PairMap(Texts(register)) else map[]
  }

  /** `prior` after the fields are copied out of `m` in reading order, up to
      the first required key that `m` lacks. */
  function Assign(prior: StepData, m: map<string, string>): StepData {
    var a0 := "value" in m;
    var a1 := a0 && "status" in m;
    var a2 := a1 && "tracker_id" in m;
    var a3 := a2 && "timestamp" in m;
    var a4 := a3 && "attached_files" in m;
    var a5 := a4 && "message_reference" in m;
    prior.(
      value := if a0 then m["value"] else prior.value,
      status := if a1 then m["status"] else prior.status,
      trackerId := if a2 then m["tracker_id"] else prior.trackerId,
      timestamp := if a3 then m["timestamp"] else prior.timestamp,
      attachedFiles := if a4 then m["attached_files"] else prior.attachedFiles,
      messageReference := if a5 then m["message_reference"] else prior.messageReference)
  }

  /** The fields of the step after the parse, whether it returned or panicked. */
  function Stored(register: seq<Value>, prior: StepData): StepData {
    Assign(prior, FieldsOf(register))
  }

  /** What the parse does once the map is read and `after` holds the
      assigned fields: panic on the first missing key or on a leftover. */
  function Checked(m: map<string, string>, after: StepData): Outcome<StepData, string> {
    if Missing(m).Some? then Panic(MissingMessage(Missing(m).value))
    else if m.Keys - StepKeySet != {} then Panic(TooManyValues)
    else Success(after)
  }

  /** What `parse_from_redis` returns, or the panic it raises. */
  function ParseStep(register: seq<Value>, prior: StepData): (r: Outcome<StepData, string>)
    ensures !r.Failure?
    ensures r.Success? ==> r.value.id == prior.id
  {
    if !AllData(register) then Panic(UnexpectedValue)
    else Checked(PairMap(Texts(register)), Stored(register, prior))
  }

  /** The first loop of `parse_from_redis`: the register read into a map. */
  method CollectFields(register: seq<Value>) returns (r: Outcome<map<string, string>, string>)
    ensures AllData(register) ==> r == Success(PairMap(Texts(register)))
    ensures !AllData(register) ==> r == Panic(UnexpectedValue)
  {
    var values: map<string, string> := map[];
    var paramName := "";
    var index := 0;
    while index < |register|
      invariant 0 <= index <= |register|
      invariant AllData(register[..index])
      invariant values == PairMap(Texts(register[..index]))
      invariant index % 2 == 1 ==> paramName == register[index - 1].text
    {
      var elem := register[index];
      if !elem.Data? {
        return Panic(UnexpectedValue);
      }
      var stringVal := elem.text;
      TextsStep(register, index);
      PairMapSnoc(Texts(register[..index]), stringVal);
      if index % 2 == 0 {
        paramName := stringVal;
      } else {
        values := values[paramName := stringVal];
      }
      index := index + 1;
    }
    assert register[..index] == register;
    return Success(values);
  }

  /** A tracker step whose fields `parse_from_redis` assigns in place. */
  class TrackerStep {
    var trackerId: string
    var timestamp: string
    var id: string
    var status: string
    var value: string
    var attachedFiles: string
    var messageReference: string

    function Snapshot(): StepData
      reads this
    {
      StepData(trackerId, timestamp, id, status, value, attachedFiles, messageReference)
    }

    /** `TrackerStep::default()`: every field empty. */
    constructor Default()
      ensures Snapshot() == StepData("", "", "", "", "", "", "")
    {
      trackerId, timestamp, id, status := "", "", "", "";
      value, attachedFiles, messageReference := "", "", "";
    }

    /** `parse_from_redis`: read the register, then copy the six fields. */
    method ParseFromRedis(register: seq<Value>) returns (r: Outcome<StepData, string>)
      modifies this
      ensures Snapshot() == Stored(register, old(Snapshot()))
      ensures r == ParseStep(register, old(Snapshot()))
      ensures r.Success? ==> r.value == Snapshot()
    {
      var collected := CollectFields(register);
      if !collected.Success? {
        return Panic(UnexpectedValue);
      }
      r := AssignFields(collected.value);
    }

    /** The second half of `parse_from_redis`: each required field is copied
        out of the map and removed from it; a field missing, or a key left
        over at the end, panics. */
    method AssignFields(values: map<string, string>) returns (r: Outcome<StepData, string>)
      modifies this
      ensures Snapshot() == Assign(old(Snapshot()), values)
      ensures r == Checked(values, Snapshot())
    {
      var head := AssignHead(values);
      if !head.Success? {
        return Panic(head.message);
      }
      var tail := AssignTail(head.value);
      if !tail.Success? {
        return Panic(tail.message);
      }
      var rest := tail.value;
      assert rest.Keys == values.Keys - StepKeySet;
      if rest.Keys != {} {
        return Panic(TooManyValues);
      }
      return Success(Snapshot());
    }

    /** `value`, `status` and `tracker_id`, in that order. */
    method AssignHead(values: map<string, string>) returns (r: Outcome<map<string, string>, string>)
      modifies this
      ensures value == (if "value" in values then values["value"] else old(value))
      ensures status == (if "value" in values && "status" in values then values["status"] else old(status))
      ensures trackerId == (if HasHead(values) then values["tracker_id"] else old(trackerId))
      ensures id == old(id) && timestamp == old(timestamp)
      ensures attachedFiles == old(attachedFiles) && messageReference == old(messageReference)
      ensures HasHead(values) ==> r == Success(values - HeadKeys)
      ensures !HasHead(values) ==> r == Panic(MissingMessage(Missing(values).value))
    {
      var rest := values;

      if "value" !in rest { return Panic(MissingMessage("value")); }
      value := rest["value"];
      rest := rest - {"value"};

      if "status" !in rest { return Panic(MissingMessage("status")); }
      status := rest["status"];
      rest := rest - {"status"};

      if "tracker_id" !in rest { return Panic(MissingMessage("tracker_id")); }
      trackerId := rest["tracker_id"];
      rest := rest - {"tracker_id"};

      assert rest.Keys == values.Keys - HeadKeys;
      assert rest == values - HeadKeys;
      return Success(rest);
    }

    /** `timestamp`, `attached_files` and `message_reference`, in that order. */
    method AssignTail(values: map<string, string>) returns (r: Outcome<map<string, string>, string>)
      modifies this
      ensures timestamp == (if "timestamp" in values then values["timestamp"] else old(timestamp))
      ensures attachedFiles ==
                (if "timestamp" in values && "attached_files" in values then values["attached_files"]
                 else old(attachedFiles))
      ensures messageReference == (if HasTail(values) then values["message_reference"] else old(messageReference))
      ensures id == old(id) && value == old(value) && status == old(status) && trackerId == old(trackerId)
      ensures HasTail(values) ==> r == Success(values - TailKeys)
      ensures "timestamp" !in values ==> r == Panic(MissingMessage("timestamp"))
      ensures "timestamp" in values && "attached_files" !in values ==> r == Panic(MissingMessage("attached_files"))
      ensures "timestamp" in values && "attached_files" in values && "message_reference" !in values ==>
                r == Panic(MissingMessage("message_reference"))
    {
      var rest := values;

      if "timestamp" !in rest { return Panic(MissingMessage("timestamp")); }
      timestamp := rest["timestamp"];
      rest := rest - {"timestamp"};

      if "attached_files" !in rest { return Panic(MissingMessage("attached_files")); }
      attachedFiles := rest["attached_files"];
      rest := rest - {"attached_files"};

      if "message_reference" !in rest { return Panic(MissingMessage("message_reference")); }
      messageReference := rest["message_reference"];
      rest := rest - {"message_reference"};

      assert rest.Keys == values.Keys - TailKeys;
      assert rest == values - TailKeys;
      return Success(rest);
    }
  }

  /** The parse succeeds exactly when the register is all `Data` and its
      keys with values are exactly the six required ones; the step it
      returns holds the values stored under those keys and the old `id`. */
  lemma ParseStepOk(register: seq<Value>, prior: StepData)
    ensures ParseStep(register, prior).Success? <==>
            AllData(register) && PairMap(Texts(register)).Keys == StepKeySet
    ensures ParseStep(register, prior).Success? ==>
              var m := PairMap(Texts(register));
              ParseStep(register, prior).value ==
                StepData(m["tracker_id"], m["timestamp"], prior.id, m["status"],
                         m["value"], m["attached_files"], m["message_reference"])
  {
    if AllData(register) {
      var m := PairMap(Texts(register));
      if m.Keys == StepKeySet {
        assert Missing(m) == None;
      }
    }
  }

  /** The parse panics on a non-`Data` element, on a missing required key
      (naming the first one in reading order) and on a key left over. */
  lemma ParseStepPanics(register: seq<Value>, prior: StepData)
    ensures !AllData(register) ==> ParseStep(register, prior) == Panic(UnexpectedValue)
    ensures AllData(register) ==>
              var m := PairMap(Texts(register));
              forall i :: 0 <= i < 6 && StepKeys[i] !in m && (forall j :: 0 <= j < i ==> StepKeys[j] in m) ==>
                ParseStep(register, prior) == Panic(MissingMessage(StepKeys[i]))
    ensures AllData(register) && StepKeySet <= PairMap(Texts(register)).Keys &&
            PairMap(Texts(register)).Keys != StepKeySet ==>
              ParseStep(register, prior) == Panic(TooManyValues)
  {
    if AllData(register) {
      var m := PairMap(Texts(register));
      forall i | 0 <= i < 6 && StepKeys[i] !in m && (forall j :: 0 <= j < i ==> StepKeys[j] in m)
        ensures Missing(m) == Some(StepKeys[i])
      {
        if i > 0 { assert StepKeys[0] in m; }
        if i > 1 { assert StepKeys[1] in m; }
        if i > 2 { assert StepKeys[2] in m; }
        if i > 3 { assert StepKeys[3] in m; }
        if i > 4 { assert StepKeys[4] in m; }
      }
    }
  }
}
