/** The duration formatter of chastikey.go: `format_time` writes one "N unit(s) "
    phrase and `time_to_days` turns a count of seconds into "D days H hours M minutes
    S seconds", naming only the units that are not zero. */
module Duration {
  import opened GoStrings

  /** "N unit" or "N units", as a listener hears a quantity. */
  function Spoken(count: int, unit: string): string {
    IntToString(count) + " " + (if count == 1 then unit else unit + "s")
  }

  /** A spoken quantity is the count in decimal, one space, then the unit, which
      carries a plural "s" exactly when the count is not one. */
  lemma SpokenPlural(count: int, unit: string)
    ensures var r, n := Spoken(count, unit), |IntToString(count)|;
      && |r| > n && r[..n + 1] == IntToString(count) + " "
      && (r[n + 1..] == unit <==> count == 1)
      && (r[n + 1..] == unit + "s" <==> count != 1)
  {
    var r, n := Spoken(count, unit), |IntToString(count)|;
    assert r[n + 1..] == if count == 1 then unit else unit + "s";
  }

  /** format_time: the spoken quantity followed by exactly one space. */
  function FormatTime(val: int, name: string): (r: string)
    ensures r == Spoken(val, name) + " "
  {
    var res := IntToString(val) + " " + name;
    (if val != 1 then res + "s" else res) + " "
  }

  /** A count of seconds split into whole days, hours, minutes and seconds. */
  datatype Breakdown = Breakdown(days: nat, hours: nat, minutes: nat, seconds: nat)
  {
    /** The number of seconds this breakdown stands for. */
    function Total(): int {
      days * 86400 + hours * 3600 + minutes * 60 + seconds
    }

    /** Every unit below a day is smaller than the unit above it. */
    predicate Normal() {
      hours < 24 && minutes < 60 && seconds < 60
    }
  }

  lemma DivUnique(a: int, b: int, q: int, r: int)
    requires b > 0 && 0 <= r < b && a == q * b + r
    ensures q == a / b && r == a % b
  {
    var q', r' := a / b, a % b;
    assert (q - q') * b == r' - r;
    if q < q' {
      MulAtLeast(q' - q, b);
    } else if q > q' {
      MulAtLeast(q - q', b);
    }
  }

  /** A positive multiple of a positive number is at least that number. */
  lemma MulAtLeast(d: int, b: int)
    requires d >= 1 && b > 0
    ensures d * b >= b
  {
  }

  /** The split of a non-negative second count into its normal breakdown. */
  function Split(v: nat): (b: Breakdown)
    ensures b.Normal() && b.Total() == v
  {
    var days := v / 86400;
    var rest := v % 86400;
    DivUnique(rest, 3600, rest / 3600, rest % 3600);
    Breakdown(days, rest / 3600, rest % 3600 / 60, rest % 3600 % 60)
  }

  /** There is only one normal breakdown of a second count. */
  lemma SplitUnique(b: Breakdown)
    requires b.Normal()
    ensures Split(b.Total()) == b
  {
    var v := b.Total();
    var below := b.hours * 3600 + b.minutes * 60 + b.seconds;
    DivUnique(v, 86400, b.days, below);
    DivUnique(below, 3600, b.hours, b.minutes * 60 + b.seconds);
    DivUnique(b.minutes * 60 + b.seconds, 60, b.minutes, b.seconds);
  }

  /** The spoken units of a breakdown: days, hours, minutes and seconds in that
      order, each present exactly when its count is not zero. */
  function Words(b: Breakdown): seq<string> {
    Part(b.days, "day") + Part(b.hours, "hour") + Part(b.minutes, "minute") + Part(b.seconds, "second")
  }

  /** The spoken unit when its count is positive, and nothing otherwise. */
  function Part(count: nat, unit: string): seq<string> {
    if count > 0 then [Spoken(count, unit)] else []
  }

  /** What time_to_days says for a second count: nothing at all unless it is positive,
      otherwise its non-zero units joined by single spaces. */
  function DurationText(v: int): string {
    if v <= 0 then "" else Join(Words(Split(v)), " ")
  }

  lemma SpokenIsWord(count: nat, unit: string)
    requires unit != [] && !IsSpace(unit[|unit| - 1])
    ensures Word(Spoken(count, unit))
  {
    var r := Spoken(count, unit);
    IntToStringShape(count);
    assert r[0] == IntToString(count)[0];
  }

  lemma PartIsWords(count: nat, unit: string)
    requires unit != [] && !IsSpace(unit[|unit| - 1])
    ensures AllWords(Part(count, unit))
  {
    if count > 0 {
      SpokenIsWord(count, unit);
    }
  }

  lemma WordsAreWords(b: Breakdown)
    ensures AllWords(Words(b))
  {
    var d, h, m, s := Part(b.days, "day"), Part(b.hours, "hour"), Part(b.minutes, "minute"), Part(b.seconds, "second");
    PartIsWords(b.days, "day");
    PartIsWords(b.hours, "hour");
    PartIsWords(b.minutes, "minute");
    PartIsWords(b.seconds, "second");
    AllWordsAppend(d, h);
    AllWordsAppend(d + h, m);
    AllWordsAppend(d + h + m, s);
  }

  lemma SpacedWords(b: Breakdown)
    ensures Spaced(Words(b)) == Spaced(Part(b.days, "day")) + Spaced(Part(b.hours, "hour"))
      + Spaced(Part(b.minutes, "minute")) + Spaced(Part(b.seconds, "second"))
  {
    var d, h, m, s := Part(b.days, "day"), Part(b.hours, "hour"), Part(b.minutes, "minute"), Part(b.seconds, "second");
    SpacedConcat(d, h);
    SpacedConcat(d + h, m);
    SpacedConcat(d + h + m, s);
  }

  /** Once the breakdown of a positive count is known, trimming its spaced words
      gives the duration text; a count that is not positive has no words at all. */
  lemma TrimmedWords(v: int, b: Breakdown)
    requires v > 0 ==> b.Normal() && b.Total() == v
    requires v <= 0 ==> b == Breakdown(0, 0, 0, 0)
    ensures TrimSpace(Spaced(Words(b))) == DurationText(v)
    ensures DurationText(v) == "" <==> v <= 0
    ensures Word(DurationText(v)) || DurationText(v) == ""
  {
    if v > 0 {
      SplitUnique(b);
      WordsAreWords(b);
      TrimSpaced(Words(b));
      assert Words(b) != [] by {
        if b.days == 0 && b.hours == 0 && b.minutes == 0 { assert b.seconds > 0; }
      }
      JoinEdges(Words(b));
    } else {
      assert Words(b) == [];
    }
  }

  /** The duration text is empty exactly for a count that is not positive, and
      otherwise has no white space at either end. */
  lemma DurationTextShape(v: int)
    ensures DurationText(v) == "" <==> v <= 0
    ensures DurationText(v) == "" || Word(DurationText(v))
  {
    if v > 0 {
      TrimmedWords(v, Split(v));
    } else {
      TrimmedWords(v, Breakdown(0, 0, 0, 0));
    }
  }

  /** One block of time_to_days: take the whole number of `size`-second units out of
      `val` (Go division), and when it is positive speak it and subtract it. */
  method PeelUnit(val: int, size: int, name: string) returns (count: nat, rest: int, phrase: string)
    requires size > 0
    ensures val > 0 ==> val == count * size + rest && 0 <= rest < size
    ensures val <= 0 ==> count == 0 && rest == val
    ensures phrase == Spaced(Part(count, name))
  {
    rest, phrase := val, "";
    var units := GoDiv(val, size);
    if units > 0 {
      phrase := FormatTime(units, name);
      rest := val - units * size;
    }
    count := if units > 0 then units else 0;
    SpacedPart(count, name);
  }

  lemma SpacedPart(count: nat, name: string)
    ensures Spaced(Part(count, name)) == if count > 0 then FormatTime(count, name) else ""
  {
    if count > 0 { assert Part(count, name)[..0] == []; }
  }

  /** time_to_days: peels off days, hours and minutes from the count in turn, appends a
      phrase for each one that is positive and for a positive remainder of seconds,
      and trims the trailing space. */
  method TimeToDays(v: int) returns (res: string)
    ensures res == DurationText(v)
  {
    var days, hours, mins: nat;
    var val := v;
    var phrase: string;
    res := "";
    days, val, phrase := PeelUnit(val, 86400, "day");
    res := res + phrase;
    ghost var sd := Spaced(Part(days, "day"));
    assert res == sd;
    hours, val, phrase := PeelUnit(val, 3600, "hour");
    res := res + phrase;
    ghost var sh := Spaced(Part(hours, "hour"));
    assert res == sd + sh;
    mins, val, phrase := PeelUnit(val, 60, "minute");
    res := res + phrase;
    ghost var sm := Spaced(Part(mins, "minute"));
    assert res == sd + sh + sm;
    if val > 0 {
      res := res + FormatTime(val, "second");
    }

    ghost var secs: nat := if val > 0 then val else 0;
    SpacedPart(secs, "second");
    ghost var b := Breakdown(days, hours, mins, secs);
    SpacedWords(b);
    assert res == Spaced(Words(b));
    assert v > 0 ==> b.Normal() && b.Total() == v;
    assert v <= 0 ==> b == Breakdown(0, 0, 0, 0);
    TrimmedWords(v, b);
    res := TrimSpace(res);
  }

  /** Rounding a non-negative second count down to whole minutes, as the last-pick
      phrase does, keeps its days, hours and minutes and drops its seconds. */
  lemma MinuteFloor(p: int)
    requires p >= 0
    ensures Split(60 * GoDiv(p, 60)) == Split(p).(seconds := 0)
  {
    var b := Split(p);
    DivUnique(p, 60, b.days * 1440 + b.hours * 60 + b.minutes, b.seconds);
    SplitUnique(b.(seconds := 0));
  }

  /** A count under one minute, or a negative one, rounds down to nothing to say. */
  lemma MinuteFloorSilent(p: int)
    requires p < 60
    ensures DurationText(60 * GoDiv(p, 60)) == ""
  {
  }

  /** A count with every unit present names each of them once, in order. */
  lemma DurationExampleAllUnits()
    ensures DurationText(90061) == "1 day 1 hour 1 minute 1 second"
  {
    var b := Breakdown(1, 1, 1, 1);
    assert b.Total() == 90061;
    SplitUnique(b);
    OnesSpoken();
    OnesJoined();
  }

  lemma OnesSpoken()
    ensures Words(Breakdown(1, 1, 1, 1)) == ["1 day", "1 hour", "1 minute", "1 second"]
  {
    assert IntToString(1) == "1";
    assert Spoken(1, "day") == "1 day" && Spoken(1, "hour") == "1 hour";
    assert Spoken(1, "minute") == "1 minute" && Spoken(1, "second") == "1 second";
  }

  lemma OnesJoined()
    ensures Join(["1 day", "1 hour", "1 minute", "1 second"], " ") == "1 day 1 hour 1 minute 1 second"
  {
    var ws := ["1 day", "1 hour", "1 minute", "1 second"];
    var w2, w3 := ["1 day", "1 hour"], ["1 day", "1 hour", "1 minute"];
    assert w2[..1] == ["1 day"];
    assert Join(w2, " ") == "1 day 1 hour";
    assert w3[..2] == w2;
    assert Join(w3, " ") == "1 day 1 hour 1 minute";
    assert ws[..3] == w3;
  }

  /** Zero says nothing, and two whole minutes name only the minutes, in the plural. */
  lemma DurationExampleMinutes()
    ensures DurationText(0) == ""
    ensures DurationText(120) == "2 minutes"
  {
    var b := Breakdown(0, 0, 2, 0);
    SplitUnique(b);
    assert IntToString(2) == "2";
    assert Spoken(2, "minute") == "2 minutes";
    assert Words(b) == ["2 minutes"];
  }

  /** One whole hour names only the hour, in the singular. */
  lemma DurationExampleHour()
    ensures DurationText(3600) == "1 hour"
  {
    var b := Breakdown(0, 1, 0, 0);
    SplitUnique(b);
    assert IntToString(1) == "1";
    assert Spoken(1, "hour") == "1 hour";
    assert Words(b) == ["1 hour"];
  }
}
