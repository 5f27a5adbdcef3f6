/**
  The model-year table of `constants::get_year_encodings`.

  The tenth character of a VIN encodes the model year in a 30-year cycle
  (ISO 3779): the letters `A`..`Y` without `I`, `O`, `Q`, `U` (and `Z`),
  then the digits `1`..`9`.  The table maps each code to the two model years
  it can stand for, one cycle apart.
 */
module Constants {
  import opened Outcomes

  /** The position of a character in the cycle of year codes, if it is one. */
  function CodeIndex(c: char): (k: Option<nat>)
    ensures k.Some? ==> k.value < 30
  {
    if 'A' <= c <= 'H' then Some(c as int - 'A' as int)
    else if 'J' <= c <= 'N' then Some(c as int - 'A' as int - 1)
    else if c == 'P' then Some(13)
    else if 'R' <= c <= 'T' then Some(c as int - 'A' as int - 3)
    else if 'V' <= c <= 'Y' then Some(c as int - 'A' as int - 4)
    else if '1' <= c <= '9' then Some(c as int - '1' as int + 21)
    else None
  }

  /** The code at a position of the cycle. */
  function CodeAt(k: nat): char
    requires k < 30
  {
    if k < 8 then ('A' as int + k) as char
    else if k < 13 then ('A' as int + k + 1) as char
    else if k == 13 then 'P'
    else if k < 17 then ('A' as int + k + 3) as char
    else if k < 21 then ('A' as int + k + 4) as char
    else ('1' as int + k - 21) as char
  }

  /** The table as `get_year_encodings` fills it (the years by value): the
      cycle runs from `A` (1980 or 2010) to `9` (2009 or 2039). */
  function YearTable(): (t: map<string, (int, int)>)
    ensures "A" in t && t["A"] == (1980, 2010)
    ensures "9" in t && t["9"] == (2009, 2039)
  {
    map[
      "A" := (1980, 2010),
      "B" := (1981, 2011),
      "C" := (1982, 2012),
      "D" := (1983, 2013),
      "E" := (1984, 2014),
      "F" := (1985, 2015),
      "G" := (1986, 2016),
      "H" := (1987, 2017),
      "J" := (1988, 2018),
      "K" := (1989, 2019),
      "L" := (1990, 2020),
      "M" := (1991, 2021),
      "N" := (1992, 2022),
      "P" := (1993, 2023),
      "R" := (1994, 2024),
      "S" := (1995, 2025),
      "T" := (1996, 2026),
      "V" := (1997, 2027),
      "W" := (1998, 2028),
      "X" := (1999, 2029),
      "Y" := (2000, 2030),
      "1" := (2001, 2031),
      "2" := (2002, 2032),
      "3" := (2003, 2033),
      "4" := (2004, 2034),
      "5" := (2005, 2035),
      "6" := (2006, 2036),
      "7" := (2007, 2037),
      "8" := (2008, 2038),
      "9" := (2009, 2039)]
  }

  /** `get_year_encodings`: thirty inserts into an empty map. */
  method GetYearEncodings() returns (m: map<string, (int, int)>)
    ensures m == YearTable()
  {
    m := map[];
    m := m["A" := (1980, 2010)];
    m := m["B" := (1981, 2011)];
    m := m["C" := (1982, 2012)];
    m := m["D" := (1983, 2013)];
    m := m["E" := (1984, 2014)];
    m := m["F" := (1985, 2015)];
    m := m["G" := (1986, 2016)];
    m := m["H" := (1987, 2017)];
    m := m["J" := (1988, 2018)];
    m := m["K" := (1989, 2019)];
    m := m["L" := (1990, 2020)];
    m := m["M" := (1991, 2021)];
    m := m["N" := (1992, 2022)];
    m := m["P" := (1993, 2023)];
    m := m["R" := (1994, 2024)];
    m := m["S" := (1995, 2025)];
    m := m["T" := (1996, 2026)];
    m := m["V" := (1997, 2027)];
    m := m["W" := (1998, 2028)];
    m := m["X" := (1999, 2029)];
    m := m["Y" := (2000, 2030)];
    m := m["1" := (2001, 2031)];
    m := m["2" := (2002, 2032)];
    m := m["3" := (2003, 2033)];
    m := m["4" := (2004, 2034)];
    m := m["5" := (2005, 2035)];
    m := m["6" := (2006, 2036)];
    m := m["7" := (2007, 2037)];
    m := m["8" := (2008, 2038)];
    m := m["9" := (2009, 2039)];
  }

  /** `CodeAt` and `CodeIndex` are inverse: the codes are 30 distinct characters. */
  lemma CodeAtIndex(k: nat, c: char)
    requires k < 30
    ensures CodeIndex(CodeAt(k)) == Some(k)
    ensures CodeIndex(c).Some? ==> CodeIndex(c).value < 30 && CodeAt(CodeIndex(c).value) == c
  {
  }

  /** The keys are exactly the one-character strings of the year codes. */
  lemma YearTableKeys(key: string)
    ensures key in YearTable() <==> |key| == 1 && CodeIndex(key[0]).Some?
  {
    if |key| == 1 {
      assert key == [key[0]];
    }
  }

  /** The code at position `k` stands for `1980 + k` and `2010 + k`, so the
      second year is always the first plus 30. */
  lemma YearTableYears(c: char)
    requires [c] in YearTable()
    ensures CodeIndex(c).Some?
    ensures YearTable()[[c]] == (1980 + CodeIndex(c).value, 2010 + CodeIndex(c).value)
  {
  }

  /** The table has exactly 30 entries. */
  lemma YearTableSize()
    ensures |YearTable()| == 30
  {
    var codes := set k | 0 <= k < 30 :: [CodeAt(k)];
    forall key | key in YearTable() ensures key in codes {
      YearTableKeys(key);
      CodeAtIndex(0, key[0]);
      assert key == [CodeAt(CodeIndex(key[0]).value)];
    }
    forall key | key in codes ensures key in YearTable() {
      var k :| 0 <= k < 30 && key == [CodeAt(k)];
      CodeAtIndex(k, key[0]);
      YearTableKeys(key);
    }
    assert YearTable().Keys == codes;
    CodesCount(30);
  }

  lemma {:induction false} CodesCount(n: nat)
    requires n <= 30
    ensures |set k | 0 <= k < n :: [CodeAt(k)]| == n
  {
    if n > 0 {
      var before := set k | 0 <= k < n - 1 :: [CodeAt(k)];
      var after := set k | 0 <= k < n :: [CodeAt(k)];
      assert after == before + {[CodeAt(n - 1)]};
      forall k | 0 <= k < n - 1 ensures [CodeAt(k)] != [CodeAt(n - 1)] {
        CodeAtIndex(k, CodeAt(k));
        CodeAtIndex(n - 1, CodeAt(n - 1));
        assert [CodeAt(k)][0] == CodeAt(k);
      }
      CodesCount(n - 1);
    }
  }
}
