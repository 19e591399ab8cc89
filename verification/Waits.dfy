/** How long one dispatch may wait: the waits its four retried stages can have (withRetryBackoff in
    internal/dispatch/backoff.go, as Dispatch calls it), and the longest they can add up to. */
module Waits {
  import opened Protocol
  import opened Backoff

  /** What surrounds one API call: what others do before it, how it fares, the Retry-After of its
      error, the random number of the delay that follows, and whether that wait is cancelled. */
  datatype Turn = Turn(others: seq<Event>, reply: Reply, retryAfter: nat, random: nat, cancelled: bool)

  /** The turns to come; once they are used up, API calls fail. */
  function TurnAt(script: seq<Turn>, i: nat): Turn {
    if i < |script| then script[i] else Turn([], Reply(false, false, false, false), 0, 0, false)
  }

  /** The Retry-After of the i-th turn. */
  function Ra(script: seq<Turn>, i: nat): nat { TurnAt(script, i).retryAfter }

  /** retryAfterFromErr: only the error of stage 0, the request to GitHub for a runner, can be one that
      carries a Retry-After; the errors of the other three come from the Kubernetes client. */
  function RetryAfter(t: Turn, s: nat): nat { if s == 0 then t.retryAfter else 0 }

  function StageRa(script: seq<Turn>, s: nat, i: nat): nat { RetryAfter(TurnAt(script, i), s) }

  /** The wait of stage s after a failure in that turn, with k failures before it. */
  ghost predicate WaitIs(cfg: Config, k: nat, s: nat, script: seq<Turn>, turn: nat, w: nat) {
    forall n :: Unfold(n) ==> w == WaitOf(Base(cfg, k), StageRa(script, s, turn), TurnAt(script, turn).random)
  }

  lemma WaitIsOk(cfg: Config, k: nat, s: nat, script: seq<Turn>, turn: nat, w: nat)
    requires WaitIs(cfg, k, s, script, turn, w)
    ensures WaitOk(Base(cfg, k), StageRa(script, s, turn), w)
  {
    assert Unfold(0);
  }

  /** The i-th of the waits of stage s is its jittered k+i-th delay, or the longer Retry-After of the
      i-th error. */
  ghost predicate WaitsAre(cfg: Config, k: nat, s: nat, script: seq<Turn>, turn: nat, waits: seq<nat>) {
    forall i :: 0 <= i < |waits| ==> WaitIs(cfg, k + i, s, script, turn + i, waits[i])
  }

  /** The same for some random numbers. */
  ghost predicate WaitsOk(cfg: Config, k: nat, s: nat, script: seq<Turn>, turn: nat, waits: seq<nat>) {
    forall i :: 0 <= i < |waits| ==> WaitOk(Base(cfg, k + i), StageRa(script, s, turn + i), waits[i])
  }

  // ----- the longest wait -----

  function Max(a: nat, b: nat): nat { if a >= b then a else b }

  /** The longest wait after a failure with base delay b and Retry-After ra. */
  function Longest(b: nat, ra: nat): nat { Max(6 * b / 5, ra) }

  lemma LongestWait(b: nat, ra: nat)
    ensures WaitOk(b, ra, Longest(b, ra))
    ensures forall w: nat :: WaitOk(b, ra, w) ==> w <= Longest(b, ra)
  {
  }

  // ----- one stage of the default configuration -----

  lemma {:induction false} LaterDelays(k: nat)
    requires k >= 1
    ensures Base(DEFAULT, k) >= 15 * SECOND
  {
    if k > 1 {
      LaterDelays(k - 1);
    }
  }

  lemma SumTwo(a: nat, b: nat)
    ensures Sum([a]) == a && Sum([a, b]) == a + b
  {
    assert [a, b][1..] == [b] && [b][1..] == [] && [a][1..] == [];
  }

  lemma TwoWaits(cfg: Config, k: nat, s: nat, script: seq<Turn>, turn: nat, waits: seq<nat>)
    requires WaitsOk(cfg, k, s, script, turn, waits) && |waits| <= 2
    ensures Sum(waits) <= Longest(Base(cfg, k), StageRa(script, s, turn)) + Longest(Base(cfg, k + 1), StageRa(script, s, turn + 1))
  {
    if |waits| >= 1 {
      assert WaitOk(Base(cfg, k + 0), StageRa(script, s, turn + 0), waits[0]);
      LongestWait(Base(cfg, k), StageRa(script, s, turn));
    }
    if |waits| == 1 {
      assert waits == [waits[0]];
      SumTwo(waits[0], 0);
    } else if |waits| == 2 {
      assert waits == [waits[0], waits[1]];
      assert WaitOk(Base(cfg, k + 1), StageRa(script, s, turn + 1), waits[1]);
      LongestWait(Base(cfg, k + 1), StageRa(script, s, turn + 1));
      SumTwo(waits[0], waits[1]);
    }
  }

  /** Two waits, 10 s and 15 s, each at most a fifth longer: they stay within 30 s, whatever the
      random numbers, if and only if the key has no failure left over and, in the stage that can be
      asked to wait longer, the two Retry-Afters are at most 12 s and 18 s. */
  lemma StageCap(k: nat, s: nat, script: seq<Turn>, turn: nat)
    ensures (forall waits | WaitsOk(DEFAULT, k, s, script, turn, waits) && |waits| <= 2 :: Sum(waits) <= 30 * SECOND)
       <==> k == 0 && (s == 0 ==> Ra(script, turn) <= 12 * SECOND && Ra(script, turn + 1) <= 18 * SECOND)
  {
    var ra, ra' := StageRa(script, s, turn), StageRa(script, s, turn + 1);
    var x, y := Longest(Base(DEFAULT, k), ra), Longest(Base(DEFAULT, k + 1), ra');
    LongestWait(Base(DEFAULT, k), ra);
    LongestWait(Base(DEFAULT, k + 1), ra');
    SumTwo(x, y);
    assert WaitsOk(DEFAULT, k, s, script, turn, [x, y]);
    forall waits | WaitsOk(DEFAULT, k, s, script, turn, waits) && |waits| <= 2 ensures Sum(waits) <= x + y {
      TwoWaits(DEFAULT, k, s, script, turn, waits);
    }
    StageLongest(k, ra, ra');
  }

  lemma StageLongest(k: nat, ra: nat, ra': nat)
    ensures var total := Longest(Base(DEFAULT, k), ra) + Longest(Base(DEFAULT, k + 1), ra');
            && total >= 30 * SECOND
            && (total <= 30 * SECOND <==> k == 0 && ra <= 12 * SECOND && ra' <= 18 * SECOND)
  {
    LaterDelays(k + 1);
    if k > 0 {
      LaterDelays(k);
    } else {
      assert Base(DEFAULT, 0) == 10 * SECOND && Base(DEFAULT, 1) == 15 * SECOND;
    }
  }

  // ----- all the stages of a dispatch -----

  /** The waits of stages s, s + 1, ... from `turn` on, when stage s has had j of them, exactly: an
      attempt succeeds, which only a good reply can do; or it fails, and is the last one or followed by
      its wait, after which a cancelled context ends everything. `ks` are the failures the stages' keys
      have left over. */
  ghost predicate Runs(cfg: Config, max: int, ks: seq<nat>, script: seq<Turn>, s: nat, j: nat, turn: nat, waits: seq<nat>)
    requires s <= |ks|
    decreases |ks| - s, |waits|
  {
    if s == |ks| then waits == []
    else
      || (TurnAt(script, turn).reply.good && Runs(cfg, max, ks, script, s + 1, 0, turn + 1, waits))
      || (j + 1 >= max && waits == [])
      || (j + 1 < max && waits != [] && WaitIs(cfg, ks[s] + j, s, script, turn, waits[0])
          && if TurnAt(script, turn).cancelled then waits[1..] == [] else Runs(cfg, max, ks, script, s, j + 1, turn + 1, waits[1..]))
  }

  /** No wait but the last of the first n from `turn` on was cancelled. */
  predicate Uncancelled(script: seq<Turn>, turn: nat, n: nat) {
    forall i: nat :: turn <= i < turn + n ==> !TurnAt(script, i).cancelled
  }

  /** How the retry loop of a stage ended, after so many attempts and waits. */
  ghost predicate Ended(script: seq<Turn>, max: int, turn: nat, attempts: nat, waits: nat, ok: bool) {
    forall n :: Unfold(n) ==>
      && attempts >= 1 && Uncancelled(script, turn, attempts - 1)
      && (attempts <= max || attempts == 1)
      && if ok then waits == attempts - 1 && TurnAt(script, turn + attempts - 1).reply.good
         else (waits == attempts - 1 && attempts >= max) || (waits == attempts < max && TurnAt(script, turn + attempts - 1).cancelled)
  }

  /** The waits so far of a stage that goes on. */
  ghost predicate GoesOn(cfg: Config, k: nat, s: nat, script: seq<Turn>, turn: nat, waits: seq<nat>) {
    forall n :: Unfold(n) ==> WaitsAre(cfg, k, s, script, turn, waits) && Uncancelled(script, turn, |waits|)
  }

  /** Another attempt may end it. */
  lemma LastAttempt(cfg: Config, k: nat, s: nat, script: seq<Turn>, max: int, turn: nat, waits: seq<nat>, ok: bool)
    requires GoesOn(cfg, k, s, script, turn, waits) && |waits| < max
    requires if ok then TurnAt(script, turn + |waits|).reply.good else |waits| + 1 == max
    ensures WaitsAre(cfg, k, s, script, turn, waits) && Ended(script, max, turn, |waits| + 1, |waits|, ok)
  {
    assert Unfold(0);
  }

  /** Or it fails and is waited for, and the wait may end it. */
  lemma AnotherWait(cfg: Config, k: nat, s: nat, script: seq<Turn>, max: int, turn: nat, waits: seq<nat>, w: nat, more: seq<nat>,
                    i: nat, at: nat)
    requires GoesOn(cfg, k, s, script, turn, waits) && |waits| + 1 < max && more == waits + [w]
    requires i == k + |waits| && at == turn + |waits| && WaitIs(cfg, i, s, script, at, w)
    ensures if !TurnAt(script, at).cancelled then GoesOn(cfg, k, s, script, turn, more)
            else WaitsAre(cfg, k, s, script, turn, more) && Ended(script, max, turn, |more|, |more|, false)
  {
    assert Unfold(0);
  }

  lemma DropWait(cfg: Config, k: nat, s: nat, script: seq<Turn>, turn: nat, waits: seq<nat>)
    requires WaitsAre(cfg, k, s, script, turn, waits) && waits != []
    ensures WaitIs(cfg, k, s, script, turn, waits[0]) && WaitsAre(cfg, k + 1, s, script, turn + 1, waits[1..])
  {
    assert WaitIs(cfg, k + 0, s, script, turn + 0, waits[0]);
    forall i | 0 <= i < |waits[1..]| ensures WaitIs(cfg, k + 1 + i, s, script, turn + 1 + i, waits[1..][i]) {
      assert WaitIs(cfg, k + (i + 1), s, script, turn + (i + 1), waits[i + 1]);
    }
  }

  /** A stage that succeeds, and the stages after it. */
  lemma {:induction false} StageThenRest(cfg: Config, max: int, ks: seq<nat>, script: seq<Turn>, s: nat, j: nat, turn: nat,
                                         waits: seq<nat>, rest: seq<nat>)
    requires s < |ks| && WaitsAre(cfg, ks[s] + j, s, script, turn, waits) && (waits == [] || j + |waits| < max)
    requires Uncancelled(script, turn, |waits|) && TurnAt(script, turn + |waits|).reply.good
    requires Runs(cfg, max, ks, script, s + 1, 0, turn + |waits| + 1, rest)
    ensures Runs(cfg, max, ks, script, s, j, turn, waits + rest)
    decreases |waits|
  {
    if waits == [] {
      assert waits + rest == rest;
    } else {
      DropWait(cfg, ks[s] + j, s, script, turn, waits);
      StageThenRest(cfg, max, ks, script, s, j + 1, turn + 1, waits[1..], rest);
      RunsWait(cfg, max, ks, script, s, j, turn, waits[0], waits[1..] + rest);
      assert waits + rest == [waits[0]] + (waits[1..] + rest);
    }
  }

  /** A failed attempt and its wait, then the rest of the stage. */
  lemma RunsWait(cfg: Config, max: int, ks: seq<nat>, script: seq<Turn>, s: nat, j: nat, turn: nat, w: nat, rest: seq<nat>)
    requires s < |ks| && j + 1 < max && WaitIs(cfg, ks[s] + j, s, script, turn, w) && !TurnAt(script, turn).cancelled
    requires Runs(cfg, max, ks, script, s, j + 1, turn + 1, rest)
    ensures Runs(cfg, max, ks, script, s, j, turn, [w] + rest)
  {
    assert ([w] + rest)[1..] == rest;
  }

  /** A stage that fails, which ends the dispatch. */
  lemma {:induction false} StageFails(cfg: Config, max: int, ks: seq<nat>, script: seq<Turn>, s: nat, j: nat, turn: nat, waits: seq<nat>, cut: bool)
    requires s < |ks| && WaitsAre(cfg, ks[s] + j, s, script, turn, waits) && (waits == [] || j + |waits| < max)
    requires if cut then waits != [] && TurnAt(script, turn + |waits| - 1).cancelled && Uncancelled(script, turn, |waits| - 1)
             else Uncancelled(script, turn, |waits|) && j + |waits| + 1 >= max
    ensures Runs(cfg, max, ks, script, s, j, turn, waits)
    decreases |waits|
  {
    if waits != [] {
      DropWait(cfg, ks[s] + j, s, script, turn, waits);
      if |waits| > 1 || !cut {
        StageFails(cfg, max, ks, script, s, j + 1, turn + 1, waits[1..], cut);
        RunsWait(cfg, max, ks, script, s, j, turn, waits[0], waits[1..]);
        assert waits == [waits[0]] + waits[1..];
      }
    }
  }

  /** A stage that is followed by another. */
  lemma StageAnd(cfg: Config, max: int, ks: seq<nat>, script: seq<Turn>, s: nat, turn: nat, attempts: nat, waits: seq<nat>, rest: seq<nat>)
    requires s < |ks| && WaitsAre(cfg, ks[s], s, script, turn, waits) && Ended(script, max, turn, attempts, |waits|, true)
    requires Runs(cfg, max, ks, script, s + 1, 0, turn + attempts, rest)
    ensures Runs(cfg, max, ks, script, s, 0, turn, waits + rest)
  {
    assert Unfold(0);
    StageThenRest(cfg, max, ks, script, s, 0, turn, waits, rest);
  }

  /** The last stage of a dispatch, if it is not followed by another. */
  lemma StageOnly(cfg: Config, max: int, ks: seq<nat>, script: seq<Turn>, s: nat, turn: nat, attempts: nat, waits: seq<nat>, ok: bool)
    requires s < |ks| && WaitsAre(cfg, ks[s], s, script, turn, waits) && Ended(script, max, turn, attempts, |waits|, ok)
    requires ok ==> s + 1 == |ks|
    ensures Runs(cfg, max, ks, script, s, 0, turn, waits)
  {
    assert Unfold(0);
    if ok {
      StageThenRest(cfg, max, ks, script, s, 0, turn, waits, []);
      assert waits + [] == waits;
    } else {
      StageFails(cfg, max, ks, script, s, 0, turn, waits, |waits| == attempts);
    }
  }

  // ----- the longest they can be -----

  /** The waits stages s, s + 1, ... can have for some replies and random numbers. */
  ghost predicate Possible(cfg: Config, max: int, ks: seq<nat>, script: seq<Turn>, s: nat, j: nat, turn: nat, waits: seq<nat>)
    requires s <= |ks|
    decreases |ks| - s, |waits|
  {
    || waits == []
    || (s < |ks| && Possible(cfg, max, ks, script, s + 1, 0, turn + 1, waits))
    || (s < |ks| && j + 1 < max && waits != [] && WaitOk(Base(cfg, ks[s] + j), StageRa(script, s, turn), waits[0])
        && Possible(cfg, max, ks, script, s, j + 1, turn + 1, waits[1..]))
  }

  /** Scripts whose servers ask for the same waits. */
  ghost predicate SameRa(a: seq<Turn>, b: seq<Turn>) { forall i: nat :: Ra(a, i) == Ra(b, i) }

  lemma {:induction false} RunsPossible(cfg: Config, max: int, ks: seq<nat>, script: seq<Turn>, other: seq<Turn>, s: nat, j: nat, turn: nat, waits: seq<nat>)
    requires s <= |ks| && Runs(cfg, max, ks, other, s, j, turn, waits) && SameRa(script, other)
    ensures Possible(cfg, max, ks, script, s, j, turn, waits)
    decreases |ks| - s, |waits|
  {
    if s < |ks| && waits != [] {
      assert Ra(script, turn) == Ra(other, turn);
      if TurnAt(other, turn).reply.good && Runs(cfg, max, ks, other, s + 1, 0, turn + 1, waits) {
        RunsPossible(cfg, max, ks, script, other, s + 1, 0, turn + 1, waits);
      } else {
        WaitIsOk(cfg, ks[s] + j, s, other, turn, waits[0]);
        if !TurnAt(other, turn).cancelled {
          RunsPossible(cfg, max, ks, script, other, s, j + 1, turn + 1, waits[1..]);
        }
      }
    }
  }

  /** The script has these turns from `turn` on. */
  ghost predicate Carries(script: seq<Turn>, turn: nat, plan: seq<Turn>) {
    forall i :: 0 <= i < |plan| ==> TurnAt(script, turn + i) == plan[i]
  }

  lemma CarriesTail(script: seq<Turn>, turn: nat, plan: seq<Turn>)
    requires Carries(script, turn, plan) && plan != []
    ensures TurnAt(script, turn) == plan[0] && Carries(script, turn + 1, plan[1..])
  {
    assert TurnAt(script, turn + 0) == plan[0];
    forall i | 0 <= i < |plan[1..]| ensures TurnAt(script, turn + 1 + i) == plan[1..][i] {
      assert TurnAt(script, turn + (i + 1)) == plan[i + 1];
    }
  }

  /** The turns ask for what the script's servers ask for. */
  ghost predicate AsksLike(plan: seq<Turn>, script: seq<Turn>, turn: nat) {
    forall i :: 0 <= i < |plan| ==> plan[i].retryAfter == Ra(script, turn + i)
  }

  lemma AsksLikeCons(t: Turn, plan: seq<Turn>, script: seq<Turn>, turn: nat)
    requires t.retryAfter == Ra(script, turn) && AsksLike(plan, script, turn + 1)
    ensures AsksLike([t] + plan, script, turn)
  {
    forall i | 0 <= i < |[t] + plan| ensures ([t] + plan)[i].retryAfter == Ra(script, turn + i) {
      if i > 0 {
        assert ([t] + plan)[i] == plan[i - 1] && plan[i - 1].retryAfter == Ra(script, turn + 1 + (i - 1));
      }
    }
  }

  /** Turns, with replies and random numbers, that have exactly these waits. */
  lemma {:induction false} Plan(cfg: Config, max: int, ks: seq<nat>, script: seq<Turn>, s: nat, j: nat, turn: nat, waits: seq<nat>)
    returns (plan: seq<Turn>)
    requires s <= |ks| && Possible(cfg, max, ks, script, s, j, turn, waits)
    ensures AsksLike(plan, script, turn)
    ensures forall other :: Carries(other, turn, plan) ==> Runs(cfg, max, ks, other, s, j, turn, waits)
    decreases |ks| - s, |waits|
  {
    if s == |ks| {
      return [];
    }
    var t, rest;
    if waits == [] || Possible(cfg, max, ks, script, s + 1, 0, turn + 1, waits) {
      t := Turn([], Reply(true, false, false, false), Ra(script, turn), 0, false);
      rest := Plan(cfg, max, ks, script, s + 1, 0, turn + 1, waits);
    } else {
      WaitReached(Base(cfg, ks[s] + j), StageRa(script, s, turn), waits[0]);
      var r: nat :| WaitOf(Base(cfg, ks[s] + j), StageRa(script, s, turn), r) == waits[0];
      t := Turn([], Reply(false, false, false, false), Ra(script, turn), r, false);
      rest := Plan(cfg, max, ks, script, s, j + 1, turn + 1, waits[1..]);
    }
    plan := [t] + rest;
    AsksLikeCons(t, rest, script, turn);
    assert plan[1..] == rest;
    forall other | Carries(other, turn, plan) ensures Runs(cfg, max, ks, other, s, j, turn, waits) {
      CarriesTail(other, turn, plan);
    }
  }

  /** One script, whose servers ask for the same waits, under which the stages have exactly these. */
  lemma PossibleRuns(cfg: Config, max: int, ks: seq<nat>, script: seq<Turn>, turn: nat, waits: seq<nat>) returns (other: seq<Turn>)
    requires Possible(cfg, max, ks, script, 0, 0, turn, waits)
    ensures SameRa(script, other) && Runs(cfg, max, ks, other, 0, 0, turn, waits)
  {
    var plan := Plan(cfg, max, ks, script, 0, 0, turn, waits);
    var n := turn + |plan|;
    other := seq(turn, i requires 0 <= i < turn => TurnAt(script, i)) + plan + if n <= |script| then script[n..] else [];
    forall i | 0 <= i < |plan| ensures TurnAt(other, turn + i) == plan[i] {
    }
    forall i: nat ensures Ra(script, i) == Ra(other, i) {
      if turn <= i < n {
        assert plan[i - turn].retryAfter == Ra(script, turn + (i - turn));
      }
    }
  }

  /** The longest the waits can be in all, whatever the random numbers and replies. */
  function Worst(cfg: Config, max: int, ks: seq<nat>, script: seq<Turn>, s: nat, j: nat, turn: nat): nat
    requires s <= |ks|
    decreases |ks| - s, max - j
  {
    if s == |ks| then 0
    else
      var done := Worst(cfg, max, ks, script, s + 1, 0, turn + 1);
      if j + 1 < max then
        Max(done, Longest(Base(cfg, ks[s] + j), StageRa(script, s, turn)) + Worst(cfg, max, ks, script, s, j + 1, turn + 1))
      else done
  }

  lemma {:induction false} WithinWorst(cfg: Config, max: int, ks: seq<nat>, script: seq<Turn>, s: nat, j: nat, turn: nat, waits: seq<nat>)
    requires s <= |ks| && Possible(cfg, max, ks, script, s, j, turn, waits)
    ensures Sum(waits) <= Worst(cfg, max, ks, script, s, j, turn)
    decreases |ks| - s, |waits|
  {
    if waits != [] {
      if Possible(cfg, max, ks, script, s + 1, 0, turn + 1, waits) {
        WithinWorst(cfg, max, ks, script, s + 1, 0, turn + 1, waits);
      } else {
        LongestWait(Base(cfg, ks[s] + j), StageRa(script, s, turn));
        WithinWorst(cfg, max, ks, script, s, j + 1, turn + 1, waits[1..]);
      }
    }
  }

  lemma {:induction false} WorstReached(cfg: Config, max: int, ks: seq<nat>, script: seq<Turn>, s: nat, j: nat, turn: nat)
    returns (waits: seq<nat>)
    requires s <= |ks|
    ensures Possible(cfg, max, ks, script, s, j, turn, waits) && Sum(waits) == Worst(cfg, max, ks, script, s, j, turn)
    decreases |ks| - s, max - j
  {
    if s == |ks| {
      return [];
    }
    waits := WorstReached(cfg, max, ks, script, s + 1, 0, turn + 1);
    if j + 1 < max {
      var rest := WorstReached(cfg, max, ks, script, s, j + 1, turn + 1);
      var w := Longest(Base(cfg, ks[s] + j), StageRa(script, s, turn));
      LongestWait(Base(cfg, ks[s] + j), StageRa(script, s, turn));
      var more := [w] + rest;
      assert more[1..] == rest;
      if Worst(cfg, max, ks, script, s, j, turn) != Worst(cfg, max, ks, script, s + 1, 0, turn + 1) {
        waits := more;
      }
    }
  }

  /** With these Retry-Afters the waits of a dispatch stay within the bound, whatever the replies, the
      random numbers and the cancellations. */
  ghost predicate AlwaysWithin(cfg: Config, max: int, ks: seq<nat>, script: seq<Turn>, turn: nat, bound: nat) {
    forall other, waits :: SameRa(script, other) && Runs(cfg, max, ks, other, 0, 0, turn, waits) ==> Sum(waits) <= bound
  }

  /** For any configuration, attempts, left-over failures, Retry-Afters and bound: they do if and only if
      the computed worst case does. */
  lemma WaitBoundExact(cfg: Config, max: int, ks: seq<nat>, script: seq<Turn>, turn: nat, bound: nat)
    ensures AlwaysWithin(cfg, max, ks, script, turn, bound) <==> Worst(cfg, max, ks, script, 0, 0, turn) <= bound
  {
    var worst := WorstReached(cfg, max, ks, script, 0, 0, turn);
    var other := PossibleRuns(cfg, max, ks, script, turn, worst);
    forall other, waits | SameRa(script, other) && Runs(cfg, max, ks, other, 0, 0, turn, waits)
      ensures Sum(waits) <= Worst(cfg, max, ks, script, 0, 0, turn)
    {
      RunsPossible(cfg, max, ks, script, other, 0, 0, turn, waits);
      WithinWorst(cfg, max, ks, script, 0, 0, turn, waits);
    }
  }

  // ----- the default configuration: 120 s -----

  /** Stages n, n + 1, ... can wait this long, whenever they begin. */
  ghost predicate Takes(cfg: Config, ks: seq<nat>, script: seq<Turn>, n: nat, total: nat)
    requires n <= |ks|
  {
    forall t :: Worst(cfg, 3, ks, script, n, 0, t) == total
  }

  /** Stage s with three attempts, if the rest takes `rest` whenever it begins: all three are needed. */
  lemma ThreeAttempts(cfg: Config, ks: seq<nat>, script: seq<Turn>, s: nat, turn: nat, rest: nat)
    requires s < |ks| && Takes(cfg, ks, script, s + 1, rest)
    ensures Worst(cfg, 3, ks, script, s, 0, turn) ==
            Longest(Base(cfg, ks[s]), StageRa(script, s, turn)) + Longest(Base(cfg, ks[s] + 1), StageRa(script, s, turn + 1)) + rest
  {
    assert Worst(cfg, 3, ks, script, s, 2, turn + 2) == Worst(cfg, 3, ks, script, s + 1, 0, turn + 3);
    assert Worst(cfg, 3, ks, script, s, 1, turn + 1) ==
           Max(Worst(cfg, 3, ks, script, s + 1, 0, turn + 2),
               Longest(Base(cfg, ks[s] + 1), StageRa(script, s, turn + 1)) + Worst(cfg, 3, ks, script, s, 2, turn + 2));
  }

  /** The keys of stages s, s + 1, ... have no failures left over. */
  predicate NoneLeft(ks: seq<nat>, s: nat) { forall i :: s <= i < |ks| ==> ks[i] == 0 }

  /** The longest waits of stages s, s + 1, ..., which nobody can ask to wait longer. */
  function Later(cfg: Config, ks: seq<nat>, s: nat): nat
    requires s <= |ks|
    decreases |ks| - s
  {
    if s == |ks| then 0 else Longest(Base(cfg, ks[s]), 0) + Longest(Base(cfg, ks[s] + 1), 0) + Later(cfg, ks, s + 1)
  }

  lemma {:induction false} LaterStages(cfg: Config, ks: seq<nat>, script: seq<Turn>, s: nat)
    requires 1 <= s <= |ks|
    ensures Takes(cfg, ks, script, s, Later(cfg, ks, s))
    decreases |ks| - s
  {
    if s < |ks| {
      LaterStages(cfg, ks, script, s + 1);
      forall t ensures Worst(cfg, 3, ks, script, s, 0, t) == Later(cfg, ks, s) {
        ThreeAttempts(cfg, ks, script, s, t, Later(cfg, ks, s + 1));
      }
    }
  }

  /** With three attempts the worst case is that every stage needs all of them. */
  lemma WorstOfThree(cfg: Config, ks: seq<nat>, script: seq<Turn>, turn: nat)
    requires |ks| >= 1
    ensures Worst(cfg, 3, ks, script, 0, 0, turn) ==
            Longest(Base(cfg, ks[0]), Ra(script, turn)) + Longest(Base(cfg, ks[0] + 1), Ra(script, turn + 1)) + Later(cfg, ks, 1)
  {
    LaterStages(cfg, ks, script, 1);
    ThreeAttempts(cfg, ks, script, 0, turn, Later(cfg, ks, 1));
  }

  /** By default 30 s each, and more if a key has failures left over. */
  lemma {:induction false} LaterAtLeast(ks: seq<nat>, s: nat)
    requires s <= |ks|
    ensures Later(DEFAULT, ks, s) >= (|ks| - s) * 30 * SECOND
    ensures Later(DEFAULT, ks, s) == (|ks| - s) * 30 * SECOND <==> NoneLeft(ks, s)
    decreases |ks| - s
  {
    if s < |ks| {
      LaterAtLeast(ks, s + 1);
      StageLongest(ks[s], 0, 0);
    }
  }

  lemma DefaultWorst(ks: seq<nat>, script: seq<Turn>, turn: nat)
    requires |ks| == 4
    ensures Worst(DEFAULT, 3, ks, script, 0, 0, turn) <= 120 * SECOND
       <==> NoneLeft(ks, 0) && Ra(script, turn) <= 12 * SECOND && Ra(script, turn + 1) <= 18 * SECOND
  {
    WorstOfThree(DEFAULT, ks, script, turn);
    LaterAtLeast(ks, 1);
    StageLongest(ks[0], Ra(script, turn), Ra(script, turn + 1));
    assert NoneLeft(ks, 0) <==> ks[0] == 0 && NoneLeft(ks, 1);
  }

  /** With the default delays and three attempts, the waits of the four stages stay within 120 s, the
      default time to live of the lease, if and only if no key has failures left over, and the first
      error of the request for a runner asks for at most 12 s, the second for at most 18 s. */
  lemma DefaultCapExact(ks: seq<nat>, script: seq<Turn>, turn: nat)
    requires |ks| == 4
    ensures AlwaysWithin(DEFAULT, 3, ks, script, turn, 120 * SECOND)
       <==> NoneLeft(ks, 0) && Ra(script, turn) <= 12 * SECOND && Ra(script, turn + 1) <= 18 * SECOND
  {
    WaitBoundExact(DEFAULT, 3, ks, script, turn, 120 * SECOND);
    DefaultWorst(ks, script, turn);
  }

  /** What breaks the bound: one failure left over in any stage, or one long Retry-After of the first two
      errors of the request for a runner. There are a script with these Retry-Afters and waits it has. */
  lemma CapBroken(ks: seq<nat>, script: seq<Turn>, turn: nat) returns (other: seq<Turn>, waits: seq<nat>)
    requires |ks| == 4
    requires (exists s :: 0 <= s < 4 && ks[s] > 0) || Ra(script, turn) > 12 * SECOND || Ra(script, turn + 1) > 18 * SECOND
    ensures SameRa(script, other) && Runs(DEFAULT, 3, ks, other, 0, 0, turn, waits) && Sum(waits) > 120 * SECOND
  {
    DefaultWorst(ks, script, turn);
    waits := WorstReached(DEFAULT, 3, ks, script, 0, 0, turn);
    other := PossibleRuns(DEFAULT, 3, ks, script, turn, waits);
  }
}
