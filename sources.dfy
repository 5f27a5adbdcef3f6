/**
  What the `Source` trait and `WhatsappSource` compute from data already
  at hand: the model years of a VIN (`decode_year`) and the scan of a
  search reply for the VIN (`get_vin`, after the query).
 */
module Sources {
  import opened Outcomes
  import opened RedisValues
  import opened Constants

  /** Position of the model-year character in a VIN (the tenth). */
  const VinYearDigit: nat := 9

  const InvalidYearDigit: string := "Year digit is not a valid digit"

  /** `char::to_ascii_uppercase`: only `a`..`z` change. */
  function AsciiUpper(c: char): char {
    if 'a' <= c <= 'z' then (c as int - 32) as char else c
  }

  function Digit(d: int): char
    requires 0 <= d < 10
  {
    ('0' as int + d) as char
  }

  /** A year written with four decimal digits, as the table holds it. */
  function FourDigits(n: int): string
    requires 0 <= n < 10000
  {
    [Digit(n / 1000), Digit(n / 100 % 10), Digit(n / 10 % 10), Digit(n % 10)]
  }

  predicate IsDigits(s: string) {
    forall i :: 0 <= i < |s| ==> '0' <= s[i] <= '9'
  }

  /** The value of a four-digit text. */
  function DigitsValue(s: string): int
    requires |s| == 4
  {
    1000 * (s[0] as int - '0' as int) + 100 * (s[1] as int - '0' as int) +
    10 * (s[2] as int - '0' as int) + (s[3] as int - '0' as int)
  }

  /** Reading back a year written with `FourDigits` gives the year. */
  lemma FourDigitsValue(n: int)
    requires 0 <= n < 10000
    ensures |FourDigits(n)| == 4 && IsDigits(FourDigits(n))
    ensures DigitsValue(FourDigits(n)) == n
  {
    var q := n / 10;
    var r := q / 10;
    assert n == 10 * q + n % 10;
    assert q == 10 * r + q % 10;
    assert r == 10 * (r / 10) + r % 10;
    assert n / 100 == r && n / 1000 == r / 10;
  }

  /** `decode_year`: the two model years the tenth VIN character stands for.
      A VIN shorter than ten characters panics in `unwrap`, a character that
      is not a year code (after upper-casing) panics too. */
  function DecodeYear(vin: string): (r: Outcome<(string, string), string>)
    ensures !r.Failure?
    ensures r.Panic? ==> r.message == UnwrapNone || r.message == InvalidYearDigit
    ensures r.Success? <==> |vin| > VinYearDigit && CodeIndex(AsciiUpper(vin[VinYearDigit])).Some?
  {
    if |vin| <= VinYearDigit then Panic(UnwrapNone)
    else
      var c := AsciiUpper(vin[VinYearDigit]);
      YearTableKeys([c]);
      if [c] !in YearTable() then Panic(InvalidYearDigit)
      else
        YearTableYears(c);
        var years := YearTable()[[c]];
        Success((FourDigits(years.0), FourDigits(years.1)))
  }

  /** The year character is read without regard to case; a code at position
      `k` of the cycle gives `1980 + k` and `2010 + k`; every other character
      panics. */
  lemma DecodeYearCases(vin: string)
    ensures |vin| < 10 ==> DecodeYear(vin) == Panic(UnwrapNone)
    ensures |vin| >= 10 && CodeIndex(AsciiUpper(vin[9])).None? ==>
              DecodeYear(vin) == Panic(InvalidYearDigit)
    ensures |vin| >= 10 && CodeIndex(AsciiUpper(vin[9])).Some? ==>
              var k := CodeIndex(AsciiUpper(vin[9])).value;
              DecodeYear(vin) == Success((FourDigits(1980 + k), FourDigits(2010 + k)))
  {
    if |vin| >= 10 {
      var c := AsciiUpper(vin[9]);
      YearTableKeys([c]);
      if CodeIndex(c).Some? {
        YearTableYears(c);
      }
    }
  }

  /** On success both years are four-digit texts, the second one thirty
      years after the first. */
  lemma DecodeYearCycle(vin: string)
    requires DecodeYear(vin).Success?
    ensures var (first, second) := DecodeYear(vin).value;
            |first| == 4 && |second| == 4 && IsDigits(first) && IsDigits(second) &&
            1980 <= DigitsValue(first) < 2010 && DigitsValue(second) == DigitsValue(first) + 30
  {
    DecodeYearCases(vin);
    var k := CodeIndex(AsciiUpper(vin[9])).value;
    CodeAtIndex(0, AsciiUpper(vin[9]));
    FourDigitsValue(1980 + k);
    FourDigitsValue(2010 + k);
  }

  // ----- The VIN scan of `get_vin` -----

  /** `Value::as_sequence`: the items of a `Bulk` reply, none for `Nil`. */
  function AsSequence(v: Value): Option<seq<Value>> {
    match v
    case Bulk(items) => Some(items)
    case Nil => Some([])
    case _ => None
  }

  /** The inner loop over one register from `index` on, with `paramName` the
      pending key: the value after the first key `value`, if any; a
      non-`Data` element reached before it panics. */
  function FindValue(register: seq<Value>, index: nat, paramName: string): (r: Outcome<Option<string>, string>)
    ensures r.Panic? ==> r.message == UnexpectedValue
    ensures r.Success? && r.value.Some? ==>
              exists j :: index <= j < |register| && j % 2 == 1 && register[j] == Data(r.value.value)
    decreases |register| - index
  {
    if index >= |register| then Success(None)
    else if !register[index].Data? then Panic(UnexpectedValue)
    else if index % 2 == 0 then FindValue(register, index + 1, register[index].text)
    else if paramName == "value" then Success(Some(register[index].text))
    else FindValue(register, index + 1, paramName)
  }

  /** What the outer loop holds after `items`: each `Bulk` item is scanned,
      a value found replaces the one held, a panic ends the scan. */
  function VinScan(items: seq<Value>): (r: Outcome<Option<string>, string>)
    ensures r.Panic? ==> r.message == UnexpectedValue
    decreases |items|
  {
    if items == [] then Success(None)
    else
      match VinScan(items[..|items| - 1])
      case Success(held) =>
        var last := items[|items| - 1];
        if !last.Bulk? then Success(held)
        else (match FindValue(last.items, 0, "")
              case Success(found) => Success(if found.Some? then found else held)
              case Failure(e) => Failure(e)
              case Panic(message) => Panic(message))
      case Failure(e) => Failure(e)
      case Panic(message) => Panic(message)
  }

  /** `get_vin` after the query: the reply must be a sequence. */
  function GetVin(reply: Value): (r: Outcome<Option<string>, string>)
    ensures reply.Nil? ==> r == Success(None)
    ensures !reply.Bulk? && !reply.Nil? ==> r == Panic(UnwrapNone)
    ensures r.Panic? ==> r.message == UnwrapNone || r.message == UnexpectedValue
  {
    match AsSequence(reply)
    case None => Panic(UnwrapNone)
    case Some(items) => VinScan(items)
  }

  /** The two loops of `get_vin` over an already fetched reply. */
  method ScanVin(reply: Value) returns (r: Outcome<Option<string>, string>)
    ensures r == GetVin(reply)
  {
    var items := AsSequence(reply);
    if items.None? {
      return Panic(UnwrapNone);
    }
    var xs := items.value;
    var vinValue: Option<string> := None;
    for i := 0 to |xs|
      invariant VinScan(xs[..i]) == Success(vinValue)
    {
      assert xs[..i + 1][..i] == xs[..i];
      if xs[i].Bulk? {
        var register := xs[i].items;
        var paramName := "";
        var index := 0;
        while index < |register|
          invariant 0 <= index <= |register|
          invariant FindValue(register, 0, "") == FindValue(register, index, paramName)
        {
          var elem := register[index];
          if !elem.Data? {
            VinScanStops(xs, i + 1);
            return Panic(UnexpectedValue);
          }
          var stringVal := elem.text;
          if index % 2 == 0 {
            paramName := stringVal;
          } else if paramName == "value" {
            vinValue := Some(stringVal);
            break;
          }
          index := index + 1;
        }
      }
    }
    assert xs[..|xs|] == xs;
    return Success(vinValue);
  }

  /** Once the scan has panicked, later items change nothing. */
  lemma {:induction false} VinScanStops(items: seq<Value>, n: nat)
    requires n <= |items| && VinScan(items[..n]).Panic?
    ensures VinScan(items) == VinScan(items[..n])
    decreases |items| - n
  {
    if n < |items| {
      assert items[..n + 1][..n] == items[..n];
      VinScanStops(items, n + 1);
    } else {
      assert items[..n] == items;
    }
  }

  /** Position `j` holds the first key `value` that is followed by a value,
      and every element up to that value is `Data`. */
  ghost predicate FirstValueAt(register: seq<Value>, j: int) {
    0 <= j && j + 1 < |register| && j % 2 == 0 &&
    AllData(register[..j + 2]) && register[j].text == "value" &&
    forall k :: 0 <= k < j && k % 2 == 0 ==> register[k].text != "value"
  }

  /** The inner scan stops at the first key `value` and returns what follows it. */
  lemma FindValueFirst(register: seq<Value>, j: int)
    requires FirstValueAt(register, j)
    ensures FindValue(register, 0, "") == Success(Some(register[j + 1].text))
  {
    FindValueFrom(register, 0, "", j);
  }

  lemma {:induction false} FindValueFrom(register: seq<Value>, i: nat, paramName: string, j: int)
    requires FirstValueAt(register, j) && i <= j && i % 2 == 0
    ensures FindValue(register, i, paramName) == Success(Some(register[j + 1].text))
    decreases j - i
  {
    assert register[i] == register[..j + 2][i] && register[i + 1] == register[..j + 2][i + 1];
    if i < j {
      FindValueFrom(register, i + 2, register[i].text, j);
    }
  }

  /** A register of `Data` with no key `value` followed by a value yields nothing. */
  lemma {:induction false} FindValueNone(register: seq<Value>, i: nat, paramName: string)
    requires i % 2 == 0 && AllData(register)
    requires forall k :: i <= k && k + 1 < |register| && k % 2 == 0 ==> register[k].text != "value"
    ensures FindValue(register, i, paramName) == Success(None)
    decreases |register| - i
  {
    if i + 1 < |register| {
      FindValueNone(register, i + 2, register[i].text);
    }
  }

  /** A non-`Data` element met before any key `value` with a value panics. */
  lemma {:induction false} FindValuePanics(register: seq<Value>, i: nat, paramName: string, bad: int)
    requires i % 2 == 0 && i <= bad < |register| && !register[bad].Data?
    requires forall k :: i <= k < bad ==> register[k].Data?
    requires forall k :: i <= k && k + 1 < bad && k % 2 == 0 ==> register[k].text != "value"
    ensures FindValue(register, i, paramName) == Panic(UnexpectedValue)
    decreases bad - i
  {
    if i + 1 < bad {
      FindValuePanics(register, i + 2, register[i].text, bad);
    }
  }

  /** When the key `value` occurs once, the scan finds what the hash map of
      `parse_from_redis` stores under it. */
  lemma FindValueAgreesWithMap(register: seq<Value>, j: int)
    requires AllData(register) && PairedAt(Texts(register), j) && register[j].text == "value"
    requires forall k :: PairedAt(Texts(register), k) && k != j ==> register[k].text != "value"
    ensures "value" in PairMap(Texts(register))
    ensures FindValue(register, 0, "") == Success(Some(PairMap(Texts(register))["value"]))
  {
    var ss := Texts(register);
    assert LastPairedAt(ss, j, "value");
    PairMapLastWins(ss, j, "value");
    assert AllData(register[..j + 2]);
    assert FirstValueAt(register, j);
    FindValueFirst(register, j);
  }

  /** Item `i` is a register in which the scan finds a value, and no later
      register yields one. */
  ghost predicate LastFound(items: seq<Value>, i: int) {
    0 <= i < |items| && items[i].Bulk? && FindValue(items[i].items, 0, "").Success? &&
    FindValue(items[i].items, 0, "").value.Some? &&
    forall i' :: i < i' < |items| && items[i'].Bulk? ==> FindValue(items[i'].items, 0, "") == Success(None)
  }

  lemma {:induction false} FindValueNeverFails(register: seq<Value>, i: nat, paramName: string)
    ensures !FindValue(register, i, paramName).Failure?
    decreases |register| - i
  {
    if i < |register| && register[i].Data? {
      FindValueNeverFails(register, i + 1, if i % 2 == 0 then register[i].text else paramName);
    }
  }

  /** The outer scan panics exactly when some register panics, and returns
      no error otherwise. */
  lemma {:induction false} VinScanPanics(items: seq<Value>)
    ensures VinScan(items).Success? <==>
              forall i :: 0 <= i < |items| && items[i].Bulk? ==> FindValue(items[i].items, 0, "").Success?
    ensures !VinScan(items).Failure?
    decreases |items|
  {
    if items != [] {
      var init := items[..|items| - 1];
      var last := items[|items| - 1];
      VinScanPanics(init);
      assert forall i :: 0 <= i < |init| ==> init[i] == items[i];
      if last.Bulk? {
        FindValueNeverFails(last.items, 0, "");
      }
    }
  }

  /** Without a panic the scan returns the value found in the last register
      that has one. */
  lemma {:induction false} VinScanLastWins(items: seq<Value>)
    ensures VinScan(items).Success? && VinScan(items).value.Some? ==>
              exists i :: LastFound(items, i) && VinScan(items).value == FindValue(items[i].items, 0, "").value
    decreases |items|
  {
    if items != [] {
      var init := items[..|items| - 1];
      var last := items[|items| - 1];
      VinScanLastWins(init);
      if VinScan(items).Success? && VinScan(items).value.Some? {
        if last.Bulk? && FindValue(last.items, 0, "").Success? && FindValue(last.items, 0, "").value.Some? {
          assert LastFound(items, |items| - 1);
        } else {
          var i :| LastFound(init, i) && VinScan(init).value == FindValue(init[i].items, 0, "").value;
          assert init[i] == items[i];
          assert LastFound(items, i);
        }
      }
    }
  }

  /** The scan returns nothing exactly when no register yields a value. */
  lemma {:induction false} VinScanNone(items: seq<Value>)
    ensures VinScan(items) == Success(None) <==>
              forall i :: 0 <= i < |items| && items[i].Bulk? ==> FindValue(items[i].items, 0, "") == Success(None)
    decreases |items|
  {
    if items != [] {
      var init := items[..|items| - 1];
      VinScanNone(init);
      assert forall i :: 0 <= i < |init| ==> init[i] == items[i];
    }
  }
}
