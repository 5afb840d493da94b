/** Times of day: their textual form, and the strictly increasing list a task keeps. */
module RunTimes {
  import opened Wrappers
  import opened Text

  const SECOND := 1_000_000_000
  const DAY := 86_400 * SECOND

  /** A duration since midnight, in nanoseconds. */
  type DayTime = t: int | 0 <= t < DAY

  // --- The textual form ---------------------------------------------------------------

  predicate IsNumberOf(s: string, limit: nat) {
    AllDigits(s) && DigitsValue(s) < limit
  }

  /** "HH:MM:SS" or "HH:MM", where the hour may have one digit. */
  function ParseTime(s: string): (r: Option<DayTime>) {
    var parts := Split(s, ':');
    if (|parts| == 2 || |parts| == 3) &&
       1 <= |parts[0]| <= 2 && IsNumberOf(parts[0], 24) &&
       |parts[1]| == 2 && IsNumberOf(parts[1], 60) &&
       (|parts| == 3 ==> |parts[2]| == 2 && IsNumberOf(parts[2], 60))
    then
      var seconds := if |parts| == 3 then DigitsValue(parts[2]) else 0;
      Some((DigitsValue(parts[0]) * 3600 + DigitsValue(parts[1]) * 60 + seconds) * SECOND)
    else None
  }

  /** Digits, at least `least` and at most two of them, that denote a number below `limit`. */
  predicate WritesNumber(s: string, least: nat, limit: nat) {
    least <= |s| <= 2 && AllDigits(s) && Positional(s) < limit
  }

  /** Hours, minutes and perhaps seconds, with colons between them; `t` is in nanoseconds. */
  predicate IsTimeOf(s: string, t: int, hours: string, minutes: string, seconds: string) {
    WritesNumber(hours, 1, 24) && WritesNumber(minutes, 2, 60) &&
    (seconds == "" || WritesNumber(seconds, 2, 60)) &&
    s == hours + ":" + minutes + (if seconds == "" then "" else ":" + seconds) &&
    t == ((Positional(hours) * 60 + Positional(minutes)) * 60 +
          (if seconds == "" then 0 else Positional(seconds))) * 1_000_000_000
  }

  ghost predicate WritesTime(s: string, t: int) {
    exists hours, minutes, seconds :: IsTimeOf(s, t, hours, minutes, seconds)
  }

  lemma DigitsAvoidColon(s: string)
    requires AllDigits(s)
    ensures ':' !in s
  {
  }

  /** A text is read as a time of day exactly if it is a way to write it. */
  lemma ParseTimeIff(s: string, t: DayTime)
    ensures ParseTime(s) == Some(t) <==> WritesTime(s, t)
  {
    if ParseTime(s) == Some(t) {
      ParsedIsWritten(s, t);
    }
    if WritesTime(s, t) {
      var hours, minutes, seconds :| IsTimeOf(s, t, hours, minutes, seconds);
      WrittenIsParsed(s, t, hours, minutes, seconds);
    }
  }

  lemma ParsedIsWritten(s: string, t: DayTime)
    requires ParseTime(s) == Some(t)
    ensures WritesTime(s, t)
  {
    var parts := Split(s, ':');
    var seconds := if |parts| == 3 then parts[2] else "";
    JoinOfSplit(s, ':');
    PositionalIsValue(parts[0]);
    PositionalIsValue(parts[1]);
    if |parts| == 3 {
      PositionalIsValue(seconds);
      assert parts == [parts[0], parts[1], seconds];
      JoinOfThree(parts[0], parts[1], seconds);
    } else {
      assert parts == [parts[0], parts[1]];
    }
    assert IsTimeOf(s, t, parts[0], parts[1], seconds);
  }

  lemma JoinOfThree(a: string, b: string, c: string)
    ensures Join([a, b, c], ':') == a + ":" + b + (":" + c)
  {
    assert [a, b, c][1..] == [b, c] && [b, c][1..] == [c];
    assert Join([b, c], ':') == b + ":" + c;
  }

  lemma WrittenIsParsed(s: string, t: DayTime, hours: string, minutes: string, seconds: string)
    requires IsTimeOf(s, t, hours, minutes, seconds)
    ensures ParseTime(s) == Some(t)
  {
    PositionalIsValue(hours);
    PositionalIsValue(minutes);
    DigitsAvoidColon(hours);
    DigitsAvoidColon(minutes);
    if seconds == "" {
      assert s == hours + [':'] + minutes;
      SplitOfPrefixed(hours, ':', minutes);
      SplitOfWhole(minutes, ':');
    } else {
      PositionalIsValue(seconds);
      DigitsAvoidColon(seconds);
      assert s == hours + [':'] + (minutes + [':'] + seconds);
      SplitOfPrefixed(hours, ':', minutes + [':'] + seconds);
      SplitOfPrefixed(minutes, ':', seconds);
      SplitOfWhole(seconds, ':');
    }
  }

  function TwoDigits(n: nat): string
    requires n < 100
  {
    [(n / 10 + '0' as int) as char, (n % 10 + '0' as int) as char]
  }

  lemma TwoDigitsDenote(n: nat)
    requires n < 100
    ensures AllDigits(TwoDigits(n)) && DigitsValue(TwoDigits(n)) == n
  {
    var s := TwoDigits(n);
    assert s[..1][..0] == "";
    assert DigitsValue(s[..1]) == n / 10;
  }

  /** A time written with seconds is read back exactly. */
  lemma ParseTimeOfPrinted(h: nat, m: nat, s: nat)
    requires h < 24 && m < 60 && s < 60
    ensures ParseTime(TwoDigits(h) + ":" + TwoDigits(m) + ":" + TwoDigits(s)) ==
            Some((h * 3600 + m * 60 + s) * SECOND)
  {
    var hh, mm, ss := TwoDigits(h), TwoDigits(m), TwoDigits(s);
    TwoDigitsDenote(h);
    TwoDigitsDenote(m);
    TwoDigitsDenote(s);
    SplitOfPrefixed(hh, ':', mm + [':'] + ss);
    SplitOfPrefixed(mm, ':', ss);
    SplitOfWhole(ss, ':');
    assert hh + ":" + mm + ":" + ss == hh + [':'] + (mm + [':'] + ss);
  }

  // --- The sorted list ----------------------------------------------------------------

  predicate StrictlyIncreasing(s: seq<int>) {
    forall i, j | 0 <= i < j < |s| :: s[i] < s[j]
  }

  function Elements(s: seq<int>): set<int> {
    set x | x in s
  }

  /** Insertion into a sorted set. */
  function Insert(s: seq<int>, t: int): seq<int> {
    if s == [] || t < s[0] then [t] + s
    else if t == s[0] then s
    else [s[0]] + Insert(s[1..], t)
  }

  lemma ElementsEmpty(s: seq<int>)
    ensures Elements(s) == {} <==> s == []
  {
    if s != [] {
      assert s[0] in Elements(s);
    }
  }

  lemma ElementsCons(x: int, s: seq<int>)
    ensures Elements([x] + s) == {x} + Elements(s)
  {
    assert forall y :: y in [x] + s <==> y == x || y in s;
  }

  lemma TailSorted(x: int, s: seq<int>)
    requires StrictlyIncreasing([x] + s)
    ensures StrictlyIncreasing(s)
  {
    forall i, j | 0 <= i < j < |s| ensures s[i] < s[j] {
      assert ([x] + s)[i + 1] == s[i] && ([x] + s)[j + 1] == s[j];
    }
  }

  lemma SmallerInFront(t: int, s: seq<int>)
    requires StrictlyIncreasing(s) && (s != [] ==> t < s[0])
    ensures StrictlyIncreasing([t] + s)
  {
  }

  lemma {:induction false} InsertIntoSorted(s: seq<int>, t: int)
    requires StrictlyIncreasing(s)
    ensures StrictlyIncreasing(Insert(s, t))
    ensures Elements(Insert(s, t)) == Elements(s) + {t}
  {
    if s == [] || t < s[0] {
      ElementsCons(t, s);
      SmallerInFront(t, s);
    } else if t == s[0] {
      assert t in Elements(s);
    } else {
      var x, rest := s[0], s[1..];
      assert s == [x] + rest;
      TailSorted(x, rest);
      InsertIntoSorted(rest, t);
      ConsOfInserted(x, rest, t, Insert(rest, t));
    }
  }

  lemma ConsOfInserted(x: int, s: seq<int>, t: int, r: seq<int>)
    requires StrictlyIncreasing([x] + s) && x < t
    requires StrictlyIncreasing(r) && Elements(r) == Elements(s) + {t}
    ensures StrictlyIncreasing([x] + r)
    ensures Elements([x] + r) == Elements([x] + s) + {t}
  {
    ElementsCons(x, s);
    ElementsCons(x, r);
    forall i | 0 <= i < |r| ensures x < r[i] {
      assert r[i] in Elements(r);
      if r[i] != t {
        var j :| 0 <= j < |s| && s[j] == r[i];
        assert ([x] + s)[0] == x && ([x] + s)[j + 1] == s[j];
      }
    }
  }

  function InsertAll(s: seq<int>, ts: seq<int>): seq<int>
    decreases ts
  {
    if ts == [] then s else InsertAll(Insert(s, ts[0]), ts[1..])
  }

  lemma {:induction false} InsertAllIntoSorted(s: seq<int>, ts: seq<int>)
    requires StrictlyIncreasing(s)
    ensures StrictlyIncreasing(InsertAll(s, ts))
    ensures Elements(InsertAll(s, ts)) == Elements(s) + Elements(ts)
    decreases ts
  {
    if ts != [] {
      InsertIntoSorted(s, ts[0]);
      InsertAllIntoSorted(Insert(s, ts[0]), ts[1..]);
      assert ts == [ts[0]] + ts[1..];
      ElementsCons(ts[0], ts[1..]);
    }
  }

  /** A strictly increasing list is determined by its elements. */
  lemma {:induction false} SortedIsUnique(a: seq<int>, b: seq<int>)
    requires StrictlyIncreasing(a) && StrictlyIncreasing(b) && Elements(a) == Elements(b)
    ensures a == b
  {
    ElementsEmpty(a);
    ElementsEmpty(b);
    if a != [] {
      assert a[0] in Elements(b) && b[0] in Elements(a);
      assert a[0] == b[0];
      forall x | x in Elements(a[1..]) ensures x in Elements(b[1..]) {
        assert x in Elements(a) && x in b;
        assert x != a[0];
      }
      forall x | x in Elements(b[1..]) ensures x in Elements(a[1..]) {
        assert x in Elements(b) && x in a;
        assert x != b[0];
      }
      SortedIsUnique(a[1..], b[1..]);
      assert a == [a[0]] + a[1..] && b == [b[0]] + b[1..];
    }
  }

  /** Insertion at the first place whose element is not smaller. */
  lemma {:induction false} InsertAt(s: seq<int>, t: int, index: nat)
    requires StrictlyIncreasing(s) && index <= |s| && t !in s
    requires forall i | 0 <= i < index :: s[i] < t
    requires forall i | index <= i < |s| :: t < s[i]
    ensures Insert(s, t) == s[..index] + [t] + s[index..]
  {
    if index == 0 {
      assert s[..0] == [] && s[0..] == s;
    } else {
      InsertAt(s[1..], t, index - 1);
      assert s[..index] == [s[0]] + s[1..][..index - 1];
      assert s[1..][index - 1..] == s[index..];
    }
  }

  lemma {:induction false} InsertPresent(s: seq<int>, t: int)
    requires StrictlyIncreasing(s) && t in s
    ensures Insert(s, t) == s
  {
    if t != s[0] {
      var j :| 0 <= j < |s| && s[j] == t;
      assert s[1..][j - 1] == t;
      InsertPresent(s[1..], t);
      assert s == [s[0]] + s[1..];
    }
  }

  /** `sort.Search` for the first element not smaller than `t`. The probe also writes the
      flag: after the search it tells exactly whether `t` is there, because the last probe
      that answered true was at the returned index. */
  method Search(runAt: seq<int>, t: int) returns (index: nat, exist: bool)
    requires StrictlyIncreasing(runAt)
    ensures index <= |runAt|
    ensures forall i | 0 <= i < index :: runAt[i] < t
    ensures forall i | index <= i < |runAt| :: t <= runAt[i]
    ensures exist <==> t in runAt
  {
    exist := false;
    var i, j := 0, |runAt|;
    while i < j
      invariant 0 <= i <= j <= |runAt|
      invariant i > 0 ==> runAt[i - 1] < t
      invariant j < |runAt| ==> t <= runAt[j]
      invariant exist <==> j < |runAt| && runAt[j] == t
    {
      var h := (i + j) / 2;
      var atTime := runAt[h];
      var b := atTime >= t;
      if b {
        exist := atTime == t;
      }
      if !b {
        i := h + 1;
      } else {
        j := h;
      }
    }
    index := i;
  }
}
