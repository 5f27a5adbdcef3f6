/**
  Classification labels decoded from Redis replies
  (`FromRedisValue for Label`: `from_redis_value` and `from_redis_values`).

  A label is stored as a hash with exactly the keys `id`, `name` and
  `parent`.  `from_redis_value` decodes the first register (inner `Bulk`)
  of a `Bulk` reply; `from_redis_values` decodes every `Bulk` item of a
  list, skips the other items, and fails as a whole if one item fails.
 */
module Classification {
  import opened Outcomes
  import opened RedisValues

  /** A node of the label taxonomy; `parent == "0"` marks a root label. */
  datatype Label = Label(id: string, name: string, parent: string)

  const LabelKeys: set<string> := {"id", "name", "parent"}

  const UnexpectedType: string := "Unexpected Value type received"
  const ExtraValues: string := "Aditional unexpected values found"
  const ConversionError: string := "Error converting struct from redis value"
  const NotFound: string := "Not found"
  const ParseFailed: string := "Value couldn't be parsed"
  const NoValues: string := "No values to parse"
  const IdMissing: string := "Id field not found"
  const NameMissing: string := "name field not found"
  const ParentMissing: string := "last_name field not found"

  /** What decoding one register gives: a non-`Data` element is an error,
      a missing `id`, `name` or `parent` (checked in that order) panics, a
      key other than those three (a trailing one included) is an error. */
  function DecodeRegister(register: seq<Value>): (r: Outcome<Label, string>)
    ensures r.Failure? ==> r.error == UnexpectedType || r.error == ExtraValues
    ensures r.Panic? ==> r.message in {IdMissing, NameMissing, ParentMissing}
  {
    if !AllData(register) then Failure(UnexpectedType)
    else
      var ss := Texts(register);
      var fields := PairMap(ss);
      if "id" !in fields then Panic(IdMissing)
      else if "name" !in fields then Panic(NameMissing)
      else if "parent" !in fields then Panic(ParentMissing)
      else if KeysAt(ss) - LabelKeys != {} then Failure(ExtraValues)
      else Success(Label(fields["id"], fields["name"], fields["parent"]))
  }

  /** The register of the first `Bulk` element, if any. */
  function FirstBulk(items: seq<Value>): Option<seq<Value>> {
    if items == [] then None
    else if items[0].Bulk? then Some(items[0].items)
    else FirstBulk(items[1..])
  }

  /** What `from_redis_value` gives for a reply. */
  function DecodeLabel(v: Value): (r: Outcome<Label, string>)
    ensures r.Failure? ==> r.error in {ConversionError, NotFound, UnexpectedType, ExtraValues}
    ensures r.Panic? ==> r.message in {IdMissing, NameMissing, ParentMissing}
  {
    if !v.Bulk? then Failure(ConversionError)
    else match FirstBulk(v.items)
      case None => Failure(NotFound)
      case Some(register) => DecodeRegister(register)
  }

  /** One more decoded item: an error becomes the batch error, a panic
      propagates. */
  function Append(done: seq<Label>, item: Outcome<Label, string>): Outcome<seq<Label>, string> {
    match item
    case Success(decoded) => Success(done + [decoded])
    case Failure(_) => Failure(ParseFailed)
    case Panic(message) => Panic(message)
  }

  /** What the loop of `from_redis_values` has produced after `items`:
      `Bulk` items decoded in order, other items skipped, the first item
      that fails ends it. */
  function DecodeEach(items: seq<Value>): (r: Outcome<seq<Label>, string>)
    ensures r.Failure? ==> r.error == ParseFailed
    ensures r.Panic? ==> r.message in {IdMissing, NameMissing, ParentMissing}
    ensures r.Success? ==> |r.value| <= |items|
    decreases |items|
  {
    if items == [] then Success([])
    else
      match DecodeEach(items[..|items| - 1])
      case Success(done) =>
        var last := items[|items| - 1];
        if !last.Bulk? then Success(done) else Append(done, DecodeLabel(Bulk([last])))
      case Failure(e) => Failure(e)
      case Panic(message) => Panic(message)
  }

  /** Once an item has failed or panicked, later items change nothing. */
  lemma {:induction false} DecodeEachStops(items: seq<Value>, n: nat)
    requires n <= |items| && !DecodeEach(items[..n]).Success?
    ensures DecodeEach(items) == DecodeEach(items[..n])
    decreases |items| - n
  {
    if n < |items| {
      assert items[..n + 1][..n] == items[..n];
      DecodeEachStops(items, n + 1);
    } else {
      assert items[..n] == items;
    }
  }

  /** What `from_redis_values` gives for a list of replies. */
  function DecodeLabels(items: seq<Value>): (r: Outcome<seq<Label>, string>)
    ensures r.Failure? ==> r.error == ParseFailed || r.error == NoValues
    ensures r.Panic? ==> r.message in {IdMissing, NameMissing, ParentMissing}
    ensures r.Success? ==> 0 < |r.value| <= |items|
  {
    match DecodeEach(items)
    case Success(labels) => if labels == [] then Failure(NoValues) else Success(labels)
    case Failure(e) => Failure(e)
    case Panic(message) => Panic(message)
  }

  /** The registers of the `Bulk` items, in order. */
  function BulkRegisters(items: seq<Value>): seq<seq<Value>>
    decreases |items|
  {
    if items == [] then []
    else
      var last := items[|items| - 1];
      BulkRegisters(items[..|items| - 1]) + (if last.Bulk? then [last.items] else [])
  }

  /** The loop over one register (the key/value walk of `from_redis_value`):
      the map it builds and the set of keys it saw. */
  method ReadRegister(register: seq<Value>)
      returns (r: Outcome<(map<string, string>, set<string>), string>)
    ensures AllData(register) ==> r == Success((PairMap(Texts(register)), KeysAt(Texts(register))))
    ensures !AllData(register) ==> r == Failure(UnexpectedType)
  {
    var fields: map<string, string> := map[];
    var verificationSet: set<string> := {};
    var paramName := "";
    var index := 0;
    while index < |register|
      invariant 0 <= index <= |register|
      invariant AllData(register[..index])
      invariant fields == PairMap(Texts(register[..index]))
      invariant verificationSet == KeysAt(Texts(register[..index]))
      invariant index % 2 == 1 ==> paramName == register[index - 1].text
    {
      var elem := register[index];
      if !elem.Data? {
        return Failure(UnexpectedType);
      }
      var stringVal := elem.text;
      TextsStep(register, index);
      PairMapSnoc(Texts(register[..index]), stringVal);
      KeysAtSnoc(Texts(register[..index]), stringVal);
      if index % 2 == 0 {
        paramName := stringVal;
        verificationSet := verificationSet + {paramName};
      } else {
        fields := fields[paramName := stringVal];
      }
      index := index + 1;
    }
    assert register[..index] == register;
    return Success((fields, verificationSet));
  }

  /** `from_redis_value`: decode the first register of a `Bulk` reply. */
  method FromRedisValue(v: Value) returns (r: Outcome<Label, string>)
    ensures r == DecodeLabel(v)
  {
    if !v.Bulk? {
      return Failure(ConversionError);
    }
    var bulk := v.items;
    var k := 0;
    while k < |bulk|
      invariant 0 <= k <= |bulk|
      invariant FirstBulk(bulk) == FirstBulk(bulk[k..])
    {
      if bulk[k].Bulk? {
        var register := bulk[k].items;
        var read := ReadRegister(register);
        if !read.Success? {
          return Failure(UnexpectedType);
        }
        var (fields, verificationSet) := read.value;
        var decoded := Label("", "", "");

        if "id" !in fields { return Panic("Id field not found"); }
        decoded := decoded.(id := fields["id"]);
        verificationSet := verificationSet - {"id"};

        if "name" !in fields { return Panic("name field not found"); }
        decoded := decoded.(name := fields["name"]);
        verificationSet := verificationSet - {"name"};

        if "parent" !in fields { return Panic("last_name field not found"); }
        decoded := decoded.(parent := fields["parent"]);
        verificationSet := verificationSet - {"parent"};

        if verificationSet != {} {
          return Failure(ExtraValues);
        }
        return Success(decoded);
      }
      assert bulk[k..][1..] == bulk[k + 1..];
      k := k + 1;
    }
    return Failure(NotFound);
  }

  /** `from_redis_values`: decode every `Bulk` item of a list. */
  method FromRedisValues(items: seq<Value>) returns (r: Outcome<seq<Label>, string>)
    ensures r == DecodeLabels(items)
  {
    var parsedValues: seq<Label> := [];
    var i := 0;
    while i < |items|
      invariant 0 <= i <= |items|
      invariant DecodeEach(items[..i]) == Success(parsedValues)
    {
      var item := items[i];
      assert items[..i + 1][..i] == items[..i];
      if item.Bulk? {
        var value := FromRedisValue(Bulk([item]));
        if value.Failure? {
          DecodeEachStops(items, i + 1);
          return Failure(ParseFailed);
        }
        if value.Panic? {
          DecodeEachStops(items, i + 1);
          return Panic(value.message);
        }
        parsedValues := parsedValues + [value.value];
      }
      i := i + 1;
    }
    assert items[..i] == items;
    if parsedValues == [] {
      return Failure(NoValues);
    }
    return Success(parsedValues);
  }

  // ----- Shape of the reply -----

  /** Only the first register of a `Bulk` reply is decoded; a reply that is
      not `Bulk`, or holds no register, is an error. */
  lemma DecodeLabelShape(v: Value, prefix: seq<Value>, register: seq<Value>, rest: seq<Value>)
    ensures !v.Bulk? ==> DecodeLabel(v) == Failure(ConversionError)
    ensures v.Bulk? && (forall i :: 0 <= i < |v.items| ==> !v.items[i].Bulk?) ==>
              DecodeLabel(v) == Failure(NotFound)
    ensures (forall i :: 0 <= i < |prefix| ==> !prefix[i].Bulk?) ==>
              DecodeLabel(Bulk(prefix + [Bulk(register)] + rest)) == DecodeRegister(register)
  {
    if v.Bulk? && (forall i :: 0 <= i < |v.items| ==> !v.items[i].Bulk?) {
      FirstBulkNone(v.items);
    }
    if forall i :: 0 <= i < |prefix| ==> !prefix[i].Bulk? {
      FirstBulkAfter(prefix, register, rest);
    }
  }

  lemma {:induction false} FirstBulkNone(items: seq<Value>)
    requires forall i :: 0 <= i < |items| ==> !items[i].Bulk?
    ensures FirstBulk(items) == None
    decreases |items|
  {
    if items != [] {
      FirstBulkNone(items[1..]);
    }
  }

  lemma {:induction false} FirstBulkAfter(prefix: seq<Value>, register: seq<Value>, rest: seq<Value>)
    requires forall i :: 0 <= i < |prefix| ==> !prefix[i].Bulk?
    ensures FirstBulk(prefix + [Bulk(register)] + rest) == Some(register)
    decreases |prefix|
  {
    var all := prefix + [Bulk(register)] + rest;
    if prefix != [] {
      assert all[1..] == prefix[1..] + [Bulk(register)] + rest;
      FirstBulkAfter(prefix[1..], register, rest);
    }
  }

  // ----- One register -----

  /** The register a label is written as. */
  function EncodeLabel(l: Label): seq<Value> {
    [Data("id"), Data(l.id), Data("name"), Data(l.name), Data("parent"), Data(l.parent)]
  }

  /** Decoding a written label gives it back. */
  lemma DecodeEncodedLabel(l: Label)
    ensures DecodeLabel(Bulk([Bulk(EncodeLabel(l))])) == Success(l)
  {
    var ss := Texts(EncodeLabel(l));
    assert ss == ["id", l.id, "name", l.name, "parent", l.parent];
    assert PairMap(ss[..2]) == map["id" := l.id] by {
      assert ss[..2][..0] == [];
    }
    assert PairMap(ss[..4]) == PairMap(ss[..2])["name" := l.name] by {
      assert ss[..4][..2] == ss[..2];
    }
    assert PairMap(ss) == PairMap(ss[..4])["parent" := l.parent] by {
      assert ss[..4] == ss[..|ss| - 2];
    }
    assert KeysAt(ss) == LabelKeys by {
      forall k | k in KeysAt(ss) ensures k in LabelKeys {
        var j :| 0 <= j < |ss| && j % 2 == 0 && ss[j] == k;
        assert j == 0 || j == 2 || j == 4;
      }
      assert ss[0] in KeysAt(ss) && ss[2] in KeysAt(ss) && ss[4] in KeysAt(ss);
    }
  }

  /** A register decodes exactly when it is all `Data`, the keys that carry a
      value are exactly `id`, `name` and `parent`, and a trailing key without a
      value (if any) is one of those three as well; each field is the value
      after the last occurrence of its key. */
  lemma DecodeRegisterOk(register: seq<Value>)
    ensures DecodeRegister(register).Success? <==>
              AllData(register) && PairMap(Texts(register)).Keys == LabelKeys &&
              TrailingKey(Texts(register)) <= LabelKeys
    ensures DecodeRegister(register).Success? ==>
              var ss := Texts(register);
              var l := DecodeRegister(register).value;
              (forall j :: LastPairedAt(ss, j, "id") ==> l.id == ss[j + 1]) &&
              (forall j :: LastPairedAt(ss, j, "name") ==> l.name == ss[j + 1]) &&
              (forall j :: LastPairedAt(ss, j, "parent") ==> l.parent == ss[j + 1])
  {
    if AllData(register) {
      var ss := Texts(register);
      KeysAtIsPairMapKeys(ss);
      if DecodeRegister(register).Success? {
        var l := DecodeRegister(register).value;
        forall j | LastPairedAt(ss, j, "id") ensures l.id == ss[j + 1] {
          PairMapLastWins(ss, j, "id");
        }
        forall j | LastPairedAt(ss, j, "name") ensures l.name == ss[j + 1] {
          PairMapLastWins(ss, j, "name");
        }
        forall j | LastPairedAt(ss, j, "parent") ensures l.parent == ss[j + 1] {
          PairMapLastWins(ss, j, "parent");
        }
      }
    }
  }

  /** A register with all three keys panics never; it fails exactly when it
      holds a non-`Data` element or a key other than the three, even one
      left without a value at the end.  Missing a key panics. */
  lemma DecodeRegisterErrors(register: seq<Value>)
    ensures !AllData(register) ==> DecodeRegister(register) == Failure(UnexpectedType)
    ensures DecodeRegister(register).Panic? <==>
              AllData(register) && !(LabelKeys <= PairMap(Texts(register)).Keys)
    ensures AllData(register) && LabelKeys <= PairMap(Texts(register)).Keys ==>
              (DecodeRegister(register) == Failure(ExtraValues) <==>
               exists j :: 0 <= j < |register| && j % 2 == 0 && Texts(register)[j] !in LabelKeys)
  {
    if AllData(register) && LabelKeys <= PairMap(Texts(register)).Keys {
      var ss := Texts(register);
      if KeysAt(ss) - LabelKeys != {} {
        var k :| k in KeysAt(ss) - LabelKeys;
        var j :| 0 <= j < |ss| && j % 2 == 0 && ss[j] == k;
      }
      if exists j :: 0 <= j < |register| && j % 2 == 0 && ss[j] !in LabelKeys {
        var j :| 0 <= j < |register| && j % 2 == 0 && ss[j] !in LabelKeys;
        assert ss[j] in KeysAt(ss) - LabelKeys;
      }
    }
  }

  /** The keys are checked in the order `id`, `name`, `parent`, and the
      first one missing names itself in the panic. */
  lemma DecodeRegisterPanics(register: seq<Value>)
    requires AllData(register)
    ensures "id" !in PairMap(Texts(register)) ==>
              DecodeRegister(register) == Panic(IdMissing)
    ensures "id" in PairMap(Texts(register)) && "name" !in PairMap(Texts(register)) ==>
              DecodeRegister(register) == Panic(NameMissing)
    ensures "id" in PairMap(Texts(register)) && "name" in PairMap(Texts(register)) &&
            "parent" !in PairMap(Texts(register)) ==>
              DecodeRegister(register) == Panic(ParentMissing)
  {
  }

  // ----- A list of replies -----

  /** A reference definition over the registers alone, read from the front. */
  function DecodeAll(registers: seq<seq<Value>>): Outcome<seq<Label>, string> {
    if registers == [] then Success([])
    else match DecodeRegister(registers[0])
      case Success(first) =>
        (match DecodeAll(registers[1..])
         case Success(others) => Success([first] + others)
         case Failure(e) => Failure(e)
         case Panic(message) => Panic(message))
      case Failure(_) => Failure(ParseFailed)
      case Panic(message) => Panic(message)
  }

  lemma {:induction false} DecodeAllSnoc(registers: seq<seq<Value>>, register: seq<Value>)
    ensures DecodeAll(registers + [register]) ==
              match DecodeAll(registers)
              case Success(done) => Append(done, DecodeRegister(register))
              case Failure(e) => Failure(e)
              case Panic(message) => Panic(message)
    decreases |registers|
  {
    var all := registers + [register];
    if registers == [] {
      assert all[1..] == [];
      if DecodeRegister(register).Success? {
        var l := DecodeRegister(register).value;
        assert [l] + [] == [] + [l];
      }
    } else {
      assert all[0] == registers[0];
      assert all[1..] == registers[1..] + [register];
      DecodeAllSnoc(registers[1..], register);
      if DecodeRegister(registers[0]).Success? && DecodeAll(registers[1..]).Success? &&
         DecodeRegister(register).Success?
      {
        var first := DecodeRegister(registers[0]).value;
        var others := DecodeAll(registers[1..]).value;
        var l := DecodeRegister(register).value;
        assert [first] + (others + [l]) == ([first] + others) + [l];
      }
    }
  }

  /** The loop of `from_redis_values` decodes the `Bulk` items' registers in
      order and stops at the first one that fails. */
  lemma {:induction false} DecodeEachIsDecodeAll(items: seq<Value>)
    ensures DecodeEach(items) == DecodeAll(BulkRegisters(items))
    decreases |items|
  {
    if items != [] {
      var init := items[..|items| - 1];
      var last := items[|items| - 1];
      DecodeEachIsDecodeAll(init);
      if last.Bulk? {
        DecodeAllSnoc(BulkRegisters(init), last.items);
        assert FirstBulk([last]) == Some(last.items);
      } else {
        assert BulkRegisters(items) == BulkRegisters(init);
      }
    }
  }

  /** The registers decode together exactly when each decodes, giving one
      label per register in order. */
  lemma {:induction false} DecodeAllOk(registers: seq<seq<Value>>)
    ensures DecodeAll(registers).Success? <==>
              forall i :: 0 <= i < |registers| ==> DecodeRegister(registers[i]).Success?
    ensures DecodeAll(registers).Success? ==>
              |DecodeAll(registers).value| == |registers| &&
              forall i :: 0 <= i < |registers| ==>
                DecodeAll(registers).value[i] == DecodeRegister(registers[i]).value
    decreases |registers|
  {
    if registers != [] {
      var tail := registers[1..];
      DecodeAllOk(tail);
      assert forall i :: 0 < i < |registers| ==> registers[i] == tail[i - 1];
    }
  }

  /** Otherwise the first register that does not decode decides: an error
      becomes `ParseFailed`, a panic propagates. */
  lemma {:induction false} DecodeAllFirstError(registers: seq<seq<Value>>, i: nat)
    requires i < |registers| && !DecodeRegister(registers[i]).Success?
    requires forall j :: 0 <= j < i ==> DecodeRegister(registers[j]).Success?
    ensures DecodeAll(registers) ==
              if DecodeRegister(registers[i]).Failure? then Failure(ParseFailed)
              else Panic(DecodeRegister(registers[i]).message)
    decreases i
  {
    if i > 0 {
      var tail := registers[1..];
      assert forall j :: 0 <= j < i - 1 ==> tail[j] == registers[j + 1];
      assert DecodeRegister(registers[0]).Success?;
      DecodeAllFirstError(tail, i - 1);
    }
  }

  /** `from_redis_values` succeeds exactly when there is at least one `Bulk`
      item and every one of them decodes; it then returns one label per
      `Bulk` item, in order. */
  lemma DecodeLabelsOk(items: seq<Value>)
    ensures DecodeLabels(items).Success? <==>
              BulkRegisters(items) != [] &&
              forall i :: 0 <= i < |BulkRegisters(items)| ==> DecodeRegister(BulkRegisters(items)[i]).Success?
    ensures DecodeLabels(items).Success? ==>
              |DecodeLabels(items).value| == |BulkRegisters(items)| &&
              forall i :: 0 <= i < |BulkRegisters(items)| ==>
                DecodeLabels(items).value[i] == DecodeRegister(BulkRegisters(items)[i]).value
    ensures BulkRegisters(items) == [] ==> DecodeLabels(items) == Failure(NoValues)
  {
    DecodeEachIsDecodeAll(items);
    DecodeAllOk(BulkRegisters(items));
  }
}
