/**
  The request handlers of `handlers.rs`: guard code over the label store.

  The store itself (label existence, part-request existence, the children
  lookup, appending and removing a label, processing a notification) is not
  part of this model: it is a `Store` of oracles, and every handler also
  returns the list of oracle calls it made, in order, so that the contracts
  can say which checks run, in what order, and what is never called.
 */
module Handlers {
  import opened Outcomes
  import opened Classification
  import opened PartRequests

  /** The store operations a handler can call. */
  datatype Call =
    | LabelExists(labelId: string)
    | RequestExists(requestId: string)
    | LabelChildren(parentId: string)
    | AppendLabel(requestId: string, labelId: string)
    | RemoveLabel(requestId: string, labelId: string)
    | ProcessRequest(notification: MessageLog)

  /** The incoming notification; only its origin system is read here. */
  datatype MessageLog = MessageLog(originSystem: string)

  /** The answers the store gives. */
  datatype Store = Store(
    labelExists: string -> bool,
    requestExists: string -> bool,
    children: string -> Result<seq<Label>, string>,
    append: (string, string) -> Result<(), string>,
    remove: (string, string) -> Result<(), string>,
    process: MessageLog -> Result<PartRequest, string>)

  datatype ModifiedReference = ModifiedReference(system: string, reference: string)

  datatype StandardResponse = StandardResponse(references: seq<ModifiedReference>, errors: Option<seq<string>>)

  const EmptyResponse: StandardResponse := StandardResponse([], None)

  /** The id under which the root labels hang; it is not itself a label. */
  const RootId: string := "0"

  /** The only origin system that is handled: a part requested by a user. */
  const UserRequestOrigin: nat := 3

  const CreateFailed: string := "Error creating part request"
  const RedisSystem: string := "REDIS"

  function LabelWithIdMissing(labelId: string): string {
    "Label with id '" + labelId + "' doesnt exist"
  }

  function LabelMissing(labelId: string): string {
    "Label '" + labelId + "' doesnt exist"
  }

  function RequestMissing(requestId: string): string {
    "Part request '" + requestId + "' doesnt exist"
  }

  function ChildrenFailed(e: string): string {
    "Error obtaining labels: " + e
  }

  /** A response that reports exactly one error and no references. */
  function OneError(e: string): StandardResponse {
    StandardResponse([], Some([e]))
  }

  // ----- get_labels -----

  /** `get_labels`: the children of a label.  The root id skips the existence
      check; an unknown label is reported without asking for children; a
      failing children lookup is reported with a prefix. */
  function GetLabels(store: Store, labelId: string): (r: (Result<seq<Label>, string>, seq<Call>))
    ensures labelId == RootId ==> r.1 == [LabelChildren(RootId)]
    ensures labelId != RootId ==> |r.1| > 0 && r.1[0] == LabelExists(labelId)
    ensures labelId != RootId && !store.labelExists(labelId) ==>
              r.0 == Err(LabelWithIdMissing(labelId)) && LabelChildren(labelId) !in r.1
    ensures r.0.Ok? <==> (labelId == RootId || store.labelExists(labelId)) && store.children(labelId).Ok?
    ensures r.0.Ok? ==> r.0.value == store.children(labelId).value
    ensures (labelId == RootId || store.labelExists(labelId)) && store.children(labelId).Err? ==>
              r.0 == Err(ChildrenFailed(store.children(labelId).error))
  {
    if labelId != RootId && !store.labelExists(labelId) then
      (Err(LabelWithIdMissing(labelId)), [LabelExists(labelId)])
    else
      var checks := if labelId != RootId then [LabelExists(labelId)] else [];
      var calls := checks + [LabelChildren(labelId)];
      match store.children(labelId)
      case Err(e) => (Err(ChildrenFailed(e)), calls)
      case Ok(labels) => (Ok(labels), calls)
  }

  /** Asking for the root's children never depends on which labels exist. */
  lemma GetLabelsRootIgnoresExistence(store: Store, other: Store)
    requires store.children == other.children
    ensures GetLabels(store, RootId) == GetLabels(other, RootId)
  {
  }

  /** Every call `get_labels` makes is about the label it was given, the
      existence check comes first, and children are asked for at most once. */
  lemma GetLabelsCalls(store: Store, labelId: string)
    ensures forall c :: c in GetLabels(store, labelId).1 ==> c == LabelExists(labelId) || c == LabelChildren(labelId)
    ensures |GetLabels(store, labelId).1| <= 2
    ensures LabelChildren(labelId) in GetLabels(store, labelId).1 <==> labelId == RootId || store.labelExists(labelId)
  {
  }

  // ----- update_request_labels and remove_request_labels -----

  /** `update_request_labels`: checks that the label exists, then that the
      request exists, and only then appends the label to the request.  The
      first failing step ends the handler with that one error. */
  method UpdateRequestLabels(store: Store, requestId: string, labelId: string)
    returns (r: Result<StandardResponse, StandardResponse>, calls: seq<Call>)
    ensures |calls| > 0 && calls[0] == LabelExists(labelId)
    ensures !store.labelExists(labelId) ==> r == Err(OneError(LabelMissing(labelId))) && calls == [LabelExists(labelId)]
    ensures store.labelExists(labelId) && !store.requestExists(requestId) ==>
              r == Err(OneError(RequestMissing(requestId))) &&
              calls == [LabelExists(labelId), RequestExists(requestId)]
    ensures AppendLabel(requestId, labelId) in calls <==> store.labelExists(labelId) && store.requestExists(requestId)
    ensures store.labelExists(labelId) && store.requestExists(requestId) ==>
              calls == [LabelExists(labelId), RequestExists(requestId), AppendLabel(requestId, labelId)] &&
              (store.append(requestId, labelId).Err? ==> r == Err(OneError(store.append(requestId, labelId).error)))
    ensures r.Ok? <==> store.labelExists(labelId) && store.requestExists(requestId) && store.append(requestId, labelId).Ok?
    ensures r.Ok? ==> r.value == EmptyResponse
  {
    var response := EmptyResponse;
    calls := [LabelExists(labelId)];
    if !store.labelExists(labelId) {
      response := response.(errors := Some([LabelMissing(labelId)]));
      return Err(response), calls;
    }
    calls := calls + [RequestExists(requestId)];
    if !store.requestExists(requestId) {
      response := response.(errors := Some([RequestMissing(requestId)]));
      return Err(response), calls;
    }
    calls := calls + [AppendLabel(requestId, labelId)];
    var res := store.append(requestId, labelId);
    if res.Err? {
      response := response.(errors := Some([res.error]));
      return Err(response), calls;
    }
    return Ok(response), calls;
  }

  /** `remove_request_labels`: checks only that the request exists (never the
      label) and then removes the label from the request. */
  method RemoveRequestLabels(store: Store, requestId: string, labelId: string)
    returns (r: Result<StandardResponse, StandardResponse>, calls: seq<Call>)
    ensures forall c :: c in calls ==> !c.LabelExists?
    ensures |calls| > 0 && calls[0] == RequestExists(requestId)
    ensures !store.requestExists(requestId) ==> r == Err(OneError(RequestMissing(requestId))) && calls == [RequestExists(requestId)]
    ensures store.requestExists(requestId) ==>
              calls == [RequestExists(requestId), RemoveLabel(requestId, labelId)] &&
              (store.remove(requestId, labelId).Err? ==> r == Err(OneError(store.remove(requestId, labelId).error)))
    ensures r.Ok? <==> store.requestExists(requestId) && store.remove(requestId, labelId).Ok?
    ensures r.Ok? ==> r.value == EmptyResponse
  {
    var response := EmptyResponse;
    calls := [RequestExists(requestId)];
    if !store.requestExists(requestId) {
      response := response.(errors := Some([RequestMissing(requestId)]));
      return Err(response), calls;
    }
    calls := calls + [RemoveLabel(requestId, labelId)];
    var res := store.remove(requestId, labelId);
    if res.Err? {
      response := response.(errors := Some([res.error]));
      return Err(response), calls;
    }
    return Ok(response), calls;
  }

  // ----- new_request_received -----

  /** The ways `u16::from_str` can fail. */
  datatype IntErrorKind = Empty | InvalidDigit | PosOverflow

  const U16Max: nat := 65535

  /** The panic message of `unwrap` on a failed parse. */
  function UnwrapParseError(kind: IntErrorKind): string {
    var name := match kind
      case Empty => "Empty"
      case InvalidDigit => "InvalidDigit"
      case PosOverflow => "PosOverflow";
    "called `Result::unwrap()` on an `Err` value: ParseIntError { kind: " + name + " }"
  }

  predicate IsDecimalDigit(c: char) {
    '0' <= c <= '9'
  }

  /** The value of a text of decimal digits (a reference definition, read
      from the last digit). */
  function DecimalValue(digits: string): nat
    requires forall i :: 0 <= i < |digits| ==> IsDecimalDigit(digits[i])
  {
    if digits == [] then 0
    else
      assert IsDecimalDigit(digits[|digits| - 1]);
      10 * DecimalValue(digits[..|digits| - 1]) + (digits[|digits| - 1] as int - '0' as int)
  }

  /** The digit loop of `u16::from_str`: left to right, an invalid digit or
      a value above 65535 stops it with that error. */
  function Accumulate(acc: nat, digits: string): (r: Result<nat, IntErrorKind>)
    requires acc <= U16Max
    ensures r.Ok? ==> r.value <= U16Max
    ensures r.Err? ==> r.error != Empty
    decreases |digits|
  {
    if digits == [] then Ok(acc)
    else if !IsDecimalDigit(digits[0]) then Err(InvalidDigit)
    else
      var next := 10 * acc + (digits[0] as int - '0' as int);
      if next > U16Max then Err(PosOverflow) else Accumulate(next, digits[1..])
  }

  /** `u16::from_str`: an optional `+`, then at least one digit. */
  function ParseU16(s: string): (r: Result<nat, IntErrorKind>)
    ensures r.Ok? ==> r.value <= U16Max
    ensures r == Err(Empty) <==> s == []
  {
    if s == [] then Err(Empty)
    else if s[0] == '+' && |s| == 1 then Err(InvalidDigit)
    else if s[0] == '+' then Accumulate(0, s[1..])
    else Accumulate(0, s)
  }

  /** The digits of a number after the optional sign. */
  function Unsigned(s: string): string {
    if |s| > 0 && s[0] == '+' then s[1..] else s
  }

  /** The digit loop succeeds exactly on decimal texts whose value, read after
      `acc`, stays within range, and then gives that value. */
  lemma {:induction false} AccumulateOk(acc: nat, digits: string)
    requires acc <= U16Max
    ensures Accumulate(acc, digits).Ok? <==>
              (forall i :: 0 <= i < |digits| ==> IsDecimalDigit(digits[i])) &&
              Shifted(acc, digits) + DecimalValue(digits) <= U16Max
    ensures Accumulate(acc, digits).Ok? ==> Accumulate(acc, digits).value == Shifted(acc, digits) + DecimalValue(digits)
    decreases |digits|
  {
    if digits != [] && IsDecimalDigit(digits[0]) {
      var d := digits[0] as int - '0' as int;
      var next := 10 * acc + d;
      var rest := digits[1..];
      if next <= U16Max {
        AccumulateOk(next, rest);
      }
      if forall i :: 0 <= i < |digits| ==> IsDecimalDigit(digits[i]) {
        DecimalValueFront(digits);
        ShiftedStep(acc, d, rest);
        NoDropBelow(next, rest);
      }
    }
  }

  /** `acc` followed by the digits: `acc * 10^|digits|`. */
  function Shifted(acc: nat, digits: string): nat
    decreases |digits|
  {
    if digits == [] then acc else 10 * Shifted(acc, digits[1..])
  }

  lemma {:induction false} ShiftedStep(acc: nat, d: nat, rest: string)
    ensures Shifted(10 * acc + d, rest) == 10 * Shifted(acc, rest) + Shifted(d, rest)
    decreases |rest|
  {
    if rest != [] {
      ShiftedStep(acc, d, rest[1..]);
    }
  }

  /** Reading the first digit off a decimal text. */
  lemma {:induction false} DecimalValueFront(digits: string)
    requires |digits| > 0 && forall i :: 0 <= i < |digits| ==> IsDecimalDigit(digits[i])
    ensures Shifted(0, digits) == 0
    ensures DecimalValue(digits) == Shifted(digits[0] as int - '0' as int, digits[1..]) + DecimalValue(digits[1..])
    decreases |digits|
  {
    ShiftedZero(digits);
    var d := digits[0] as int - '0' as int;
    var n := |digits|;
    if n > 1 {
      var init := digits[..n - 1];
      DecimalValueFront(init);
      assert init[0] == digits[0];
      assert init[1..] == digits[1..][..n - 2];
      assert digits[1..][n - 2] == digits[n - 1];
      ShiftedSnoc(d, digits[1..]);
      assert DecimalValue(digits[1..]) == 10 * DecimalValue(digits[1..][..n - 2]) + (digits[n - 1] as int - '0' as int);
    }
  }

  lemma {:induction false} ShiftedZero(digits: string)
    ensures Shifted(0, digits) == 0
    decreases |digits|
  {
    if digits != [] {
      ShiftedZero(digits[1..]);
    }
  }

  /** Shifting by one more digit multiplies by ten. */
  lemma {:induction false} ShiftedSnoc(acc: nat, digits: string)
    requires |digits| > 0
    ensures Shifted(acc, digits) == 10 * Shifted(acc, digits[..|digits| - 1])
    decreases |digits|
  {
    if |digits| > 1 {
      ShiftedSnoc(acc, digits[1..]);
      assert digits[1..][..|digits| - 2] == digits[..|digits| - 1][1..];
    }
  }

  /** Once the running value is out of range, more digits keep it out. */
  lemma {:induction false} NoDropBelow(acc: nat, digits: string)
    ensures Shifted(acc, digits) >= acc
    decreases |digits|
  {
    if digits != [] {
      NoDropBelow(acc, digits[1..]);
    }
  }

  /** `u16::from_str` succeeds exactly on an optional `+` followed by at least
      one digit whose value is at most 65535, and then gives that value. */
  lemma ParseU16Ok(s: string)
    ensures ParseU16(s).Ok? <==>
              |Unsigned(s)| > 0 && (forall i :: 0 <= i < |Unsigned(s)| ==> IsDecimalDigit(Unsigned(s)[i])) &&
              DecimalValue(Unsigned(s)) <= U16Max
    ensures ParseU16(s).Ok? ==> ParseU16(s).value == DecimalValue(Unsigned(s))
  {
    ShiftedZero(Unsigned(s));
    AccumulateOk(0, Unsigned(s));
  }

  /** `new_request_received`: the origin must parse as a `u16` (otherwise the
      handler panics); origin 3 processes the notification and reports the
      created request, any other origin is rejected with an empty response. */
  method NewRequestReceived(store: Store, notification: MessageLog)
    returns (r: Outcome<StandardResponse, StandardResponse>, calls: seq<Call>)
    ensures ParseU16(notification.originSystem).Err? ==>
              r == Panic(UnwrapParseError(ParseU16(notification.originSystem).error)) && calls == []
    ensures ParseU16(notification.originSystem).Ok? && ParseU16(notification.originSystem).value != UserRequestOrigin ==>
              r == Failure(EmptyResponse) && calls == []
    ensures ParseU16(notification.originSystem) == Ok(UserRequestOrigin) ==> calls == [ProcessRequest(notification)]
    ensures ParseU16(notification.originSystem) == Ok(UserRequestOrigin) && store.process(notification).Err? ==>
              r == Failure(OneError(CreateFailed))
    ensures r.Success? <==> ParseU16(notification.originSystem) == Ok(UserRequestOrigin) && store.process(notification).Ok?
    ensures r.Success? ==>
              r.value == StandardResponse([ModifiedReference(RedisSystem, store.process(notification).value.id)], None)
  {
    var response := EmptyResponse;
    calls := [];
    var origin := ParseU16(notification.originSystem);
    if origin.Err? {
      return Panic(UnwrapParseError(origin.error)), calls;
    }
    if origin.value == UserRequestOrigin {
      calls := calls + [ProcessRequest(notification)];
      var partRequest := store.process(notification);
      if partRequest.Err? {
        response := response.(errors := Some([CreateFailed]));
        return Failure(response), calls;
      }
      response := response.(references := response.references + [ModifiedReference(RedisSystem, partRequest.value.id)]);
      return Success(response), calls;
    } else {
      return Failure(response), calls;
    }
  }

  /** The origins handled as user requests: an optional `+`, any number of
      leading zeros and a final `3`. */
  lemma UserRequestOrigins(s: string)
    requires |s| > 0 && s[|s| - 1] == '3'
    requires forall i :: 0 <= i < |Unsigned(s)| - 1 ==> Unsigned(s)[i] == '0'
    ensures ParseU16(s) == Ok(UserRequestOrigin)
  {
    var u := Unsigned(s);
    LeadingZeros(u);
    ParseU16Ok(s);
  }

  lemma {:induction false} LeadingZeros(u: string)
    requires |u| > 0 && u[|u| - 1] == '3'
    requires forall i :: 0 <= i < |u| - 1 ==> u[i] == '0'
    ensures forall i :: 0 <= i < |u| ==> IsDecimalDigit(u[i])
    ensures DecimalValue(u) == 3
    decreases |u|
  {
    if |u| > 1 {
      var init := u[..|u| - 1];
      ZerosValue(init);
    }
  }

  lemma {:induction false} ZerosValue(z: string)
    requires forall i :: 0 <= i < |z| ==> z[i] == '0'
    ensures forall i :: 0 <= i < |z| ==> IsDecimalDigit(z[i])
    ensures DecimalValue(z) == 0
    decreases |z|
  {
    if z != [] {
      ZerosValue(z[..|z| - 1]);
    }
  }
}
