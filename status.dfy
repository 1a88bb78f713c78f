/** The status narrator and command router of chastikey.go: `do_status` speaks a
    count-prefixed roster of the locks, one sentence group per lock, and
    `parse_command` sends "status" to it and answers every other command with
    "I don't know how to ...". The current time is the parameter `now`. */
module Status {
  import opened GoStrings
  import opened Duration
  import opened Locks

  /** The opening sentence, "You have N lock(s).  ". */
  function CountSentence(n: nat): string {
    "You have " + NatToString(n) + " lock" + (if n != 1 then "s" else "") + ".  "
  }

  /** The opening sentence says how many locks there are, in decimal, and uses the
      singular "lock" for exactly one of them. */
  lemma CountSentenceSaysCount(n: nat)
    ensures var r, d := CountSentence(n), NatToString(n);
      && |r| > 9 + |d| && r[..9] == "You have "
      && AllDigits(r[9..9 + |d|]) && DigitsValue(r[9..9 + |d|]) == n
      && (r[9 + |d|..] == " lock.  " <==> n == 1)
      && (r[9 + |d|..] == " locks.  " <==> n != 1)
  {
    var r, d := CountSentence(n), NatToString(n);
    assert r[9..9 + |d|] == d;
    assert r[9 + |d|..] == if n != 1 then " locks.  " else " lock.  ";
    NatToStringRoundTrip(n);
  }

  /** The seconds from time t to time now (the Go subtraction of two Unix times). */
  function Elapsed(now: int, t: int): int {
    now - t
  }

  /** A second count rounded toward zero to whole minutes with Go's division. */
  function WholeMinutes(p: int): int {
    60 * GoDiv(p, 60)
  }

  /** How long the lock has been running, as time_to_days says it. */
  function RunningText(l: Lock, now: int): string {
    DurationText(Elapsed(now, l.startTime))
  }

  /** How long ago the last card was picked, rounded toward zero to whole minutes with
      Go's truncating division before it is spoken. */
  function LastPickText(l: Lock, now: int): string {
    DurationText(WholeMinutes(Elapsed(now, l.lastPicked)))
  }

  /** The ", named X," clause, present only for a lock that has a name. */
  function NameClause(l: Lock): string {
    if l.lockName != "" then ", named " + l.lockName + "," else ""
  }

  /** The closing sentence, present only for a frozen lock. */
  function FrozenClause(l: Lock): string {
    if l.lockFrozen != 0 then "This lock is frozen.  " else ""
  }

  /** The sentences do_status speaks for the lock at 1-based position k, given the
      spoken running time and time since the last pick. */
  function LockText(k: nat, l: Lock, running: string, picked: string): string {
    ("Lock " + NatToString(k))
    + NameClause(l)
    + (" is held by " + l.lockedBy + ", ")
    + ("and has been running for " + running + ".  ")
    + ("The last card was picked " + picked + " ago.  ")
    + FrozenClause(l)
  }

  /** The sentences do_status speaks for the lock at 1-based position k at time now. */
  function LockLine(k: nat, l: Lock, now: int): string {
    LockText(k, l, RunningText(l, now), LastPickText(l, now))
  }

  /** The sentences of every lock, the one at index i numbered i + 1. */
  function Sentences(locks: seq<Lock>, now: int): (r: seq<string>)
    ensures |r| == |locks|
  {
    seq(|locks|, i requires 0 <= i < |locks| => LockLine(i + 1, locks[i], now))
  }

  lemma SentenceAt(locks: seq<Lock>, now: int, i: nat)
    requires i < |locks|
    ensures Sentences(locks, now)[i] == LockLine(i + 1, locks[i], now)
  {
  }

  /** The whole status narration for locks in the order they are spoken. */
  function Roster(locks: seq<Lock>, now: int): string {
    CountSentence(|locks|) + Concat(Sentences(locks, now))
  }

  /** What do_status may answer: the error text verbatim when the API call or the
      decoding failed, and otherwise the roster of the decoded locks in some
      LockID order. */
  ghost predicate IsStatusReply(resp: ApiResponse, now: int, res: string) {
    if resp.httpError != "" then res == resp.httpError
    else match resp.body
      case Undecodable(reason) => res == "Could not understand API results: " + reason
      case Decoded(locks) =>
        exists order :: IsSortedPermutation(order, locks) && res == Roster(order, now)
  }

  /** The body of do_status's loop for the lock at 1-based position k: how long it has
      been running and how long ago its last card was picked are each spoken by
      time_to_days, the latter first rounded toward zero to whole minutes. */
  method NarrateLock(k: nat, y: Lock, now: int) returns (line: string)
    ensures line == LockLine(k, y, now)
  {
    var dur := Elapsed(now, y.startTime);
    var pick := Elapsed(now, y.lastPicked);
    var running := TimeToDays(dur);
    var picked := TimeToDays(WholeMinutes(pick));
    line := SayLock(k, y, running, picked);
  }

  /** The string building of do_status's loop body, appending each clause in turn. */
  method SayLock(k: nat, y: Lock, running: string, picked: string) returns (line: string)
    ensures line == LockText(k, y, running, picked)
  {
    line := "Lock " + NatToString(k);
    if y.lockName != "" {
      line := line + (", named " + y.lockName + ",");
    }
    line := line + (" is held by " + y.lockedBy + ", ");
    line := line + ("and has been running for " + running + ".  ");
    line := line + ("The last card was picked " + picked + " ago.  ");
    if y.lockFrozen != 0 {
      line := line + "This lock is frozen.  ";
    }
  }

  /** do_status: fetches the locks, passes an error through unchanged, and otherwise
      speaks the count and then each lock in turn. */
  method DoStatus(resp: ApiResponse, now: int) returns (res: string)
    ensures IsStatusReply(resp, now, res)
  {
    var locks, err := TalkToChastikey(resp);
    if err != "" {
      return err;
    }

    var cnt := |locks|;
    res := "You have " + NatToString(cnt) + " lock";
    if cnt != 1 {
      res := res + "s";
    }
    res := res + ".  ";
    assert res == CountSentence(cnt) + Concat(Sentences(locks, now)[..0]) by {
      assert cnt == 1 ==> "You have " + NatToString(cnt) + " lock" + "" == "You have " + NatToString(cnt) + " lock";
      assert Sentences(locks, now)[..0] == [];
    }

    var x := 0;
    while x < |locks|
      invariant 0 <= x <= |locks|
      invariant res == CountSentence(cnt) + Concat(Sentences(locks, now)[..x])
    {
      var line := NarrateLock(x + 1, locks[x], now);
      res := res + line;
      assert res == CountSentence(cnt) + Concat(Sentences(locks, now)[..x + 1]) by {
        ConcatSnoc(Sentences(locks, now), x);
        SentenceAt(locks, now, x);
        AppendAssoc(CountSentence(cnt), Concat(Sentences(locks, now)[..x]), line);
      }
      x := x + 1;
    }
    assert Sentences(locks, now)[..x] == Sentences(locks, now);
    assert IsSortedPermutation(locks, resp.body.locks);
  }

  /** parse_command: "status" is answered by do_status; any other command is
      refused by name. The argument list is not used. */
  method ParseCommand(cmd: string, args: seq<string>, resp: ApiResponse, now: int) returns (res: string)
    ensures cmd == "status" ==> IsStatusReply(resp, now, res)
    ensures cmd != "status" ==> res == "I don't know how to " + cmd
  {
    if cmd == "status" {
      res := DoStatus(resp, now);
    } else {
      res := "I don't know how to " + cmd;
    }
  }

  /** A lock with a name is introduced as ", named X," right after its number; a lock
      without one goes straight on to " is held by". */
  lemma NameClauseIff(k: nat, l: Lock, now: int)
    ensures var line, p := LockLine(k, l, now), |"Lock " + NatToString(k)|;
      && |line| > p
      && (line[p] == ',' <==> l.lockName != "")
      && (l.lockName != "" ==> line[p..p + |l.lockName| + 9] == ", named " + l.lockName + ",")
  {
    NameClauseInText(k, l, RunningText(l, now), LastPickText(l, now));
  }

  lemma NameClauseInText(k: nat, l: Lock, running: string, picked: string)
    ensures var line, p := LockText(k, l, running, picked), |"Lock " + NatToString(k)|;
      && |line| > p
      && (line[p] == ',' <==> l.lockName != "")
      && (l.lockName != "" ==> line[p..p + |l.lockName| + 9] == ", named " + l.lockName + ",")
  {
    var head := "Lock " + NatToString(k);
    var held := " is held by " + l.lockedBy + ", ";
    var named := head + NameClause(l);
    var line := LockText(k, l, running, picked);
    assert line[..|named|] == named;
    assert line[|named|] == held[0];
    if l.lockName != "" {
      assert line[|head|..|named|] == NameClause(l);
    }
  }

  /** A lock's sentences end with "This lock is frozen.  " exactly when it is frozen. */
  lemma FrozenIff(k: nat, l: Lock, now: int)
    ensures var line := LockLine(k, l, now);
      |line| >= 22 && (line[|line| - 22..] == "This lock is frozen.  " <==> l.lockFrozen != 0)
  {
    FrozenInText(k, l, RunningText(l, now), LastPickText(l, now));
  }

  lemma FrozenInText(k: nat, l: Lock, running: string, picked: string)
    ensures var line := LockText(k, l, running, picked);
      |line| >= 22 && (line[|line| - 22..] == "This lock is frozen.  " <==> l.lockFrozen != 0)
  {
    var pick := "The last card was picked " + picked + " ago.  ";
    var line := LockText(k, l, running, picked);
    var before := line[..|line| - |FrozenClause(l)|];
    assert line == before + FrozenClause(l);
    assert before[|before| - |pick|..] == pick;
    if l.lockFrozen == 0 {
      assert line[|line| - 4] == pick[|pick| - 4] == 'o';
      assert "This lock is frozen.  "[18] == 'n';
    }
  }

  /** The last pick is spoken in whole minutes: nothing at all under a minute (or for a
      pick in the future), and otherwise the days, hours and minutes of the time since
      the pick with its seconds dropped. */
  lemma LastPickWholeMinutes(l: Lock, now: int)
    ensures var p := Elapsed(now, l.lastPicked);
      LastPickText(l, now) == if p < 60 then "" else Join(Words(Split(p).(seconds := 0)), " ")
  {
    var p := Elapsed(now, l.lastPicked);
    if p < 60 {
      MinuteFloorSilent(p);
    } else {
      MinuteFloor(p);
    }
  }

  /** With no locks at all the reply is the plural count sentence alone. */
  lemma EmptyRoster(now: int)
    ensures Roster([], now) == "You have 0 locks.  "
  {
    assert NatToString(0) == "0";
  }

  /** The reply to a successful call depends only on which locks the API returned, not
      on the order it returned them in, as long as no two different locks share a
      LockID. */
  lemma SameLocksSameReply(resp1: ApiResponse, resp2: ApiResponse, now: int, r1: string, r2: string)
    requires resp1.httpError == "" && resp1.body.Decoded?
    requires resp2.httpError == "" && resp2.body.Decoded?
    requires multiset(resp1.body.locks) == multiset(resp2.body.locks)
    requires UniqueIds(multiset(resp1.body.locks))
    requires IsStatusReply(resp1, now, r1) && IsStatusReply(resp2, now, r2)
    ensures r1 == r2
  {
    var o1 :| IsSortedPermutation(o1, resp1.body.locks) && r1 == Roster(o1, now);
    var o2 :| IsSortedPermutation(o2, resp2.body.locks) && r2 == Roster(o2, now);
    SortedPermutationsAgree(o1, o2);
  }
}
