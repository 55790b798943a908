/**
  Cleanup budgets: how long each level of a wrapped command may run after an interrupt.
  Durations are whole nanoseconds, as in Go.
*/
module Cleanup {
  const MS := 1_000_000
  const SECOND := 1000 * MS
  const STOP_TIMEOUT := 5 * SECOND
  const DAY := 24 * 3600 * SECOND

  /** Duration.Milliseconds, sent to the level inside and turned back into a duration there. */
  function Sent(t: nat): (r: nat)
    ensures r <= t < r + MS && r % MS == 0
  {
    t / MS * MS
  }

  /** The time between the interrupt and the kill of a command with this cleanup timeout. */
  function Grace(t: nat): nat {
    STOP_TIMEOUT + t + if t > 0 then SECOND else 0
  }

  /** Five seconds to stop; with any cleanup time, that time and one second more. */
  lemma GraceIs(t: nat)
    ensures Grace(t) == if t == 0 then 5_000_000_000 else t + 6_000_000_000
  {
  }

  /** The level outside waits long enough for the level inside and its own final upload. */
  predicate Nests(inner: nat, final: nat) {
    Grace(Sent(inner + final)) >= Grace(Sent(inner)) + final
  }

  lemma SentSplits(a: nat, b: nat)
    ensures Sent(a + b) == Sent(a) + Sent(b) + if a % MS + b % MS >= MS then MS else 0
  {
    assert a == Sent(a) + a % MS && b == Sent(b) + b % MS;
    var low, carry := a % MS + b % MS, if a % MS + b % MS >= MS then 1 else 0;
    assert a + b == (a / MS + b / MS + carry) * MS + (low - carry * MS);
    QuotientIs(a + b, a / MS + b / MS + carry, low - carry * MS);
  }

  lemma QuotientIs(n: nat, q: nat, r: nat)
    requires n == q * MS + r && r < MS
    ensures n / MS == q
  {
  }

  /**
    Exactly when a level nests: its final timeout is whole milliseconds, or the fractions of a
    millisecond carry, or the level is the first with any cleanup time and so gets the extra second.
  */
  lemma NestsIff(inner: nat, final: nat)
    ensures Nests(inner, final) <==>
      final % MS == 0 || inner % MS + final % MS >= MS || inner < MS <= inner + final
  {
    SentSplits(inner, final);
    assert final == Sent(final) + final % MS;
    assert Sent(inner) == 0 <==> inner < MS;
    assert Sent(inner + final) == 0 <==> inner + final < MS;
  }

  /**
    It does not always nest: around a command that may clean up for 10 ms, a final upload of 1.5 ms
    is cut short by half a millisecond; and one of 0.5 ms around a command with none is lost.
  */
  lemma FractionsFallShort()
    ensures !Nests(10_000_000, 1_500_000)
    ensures Grace(Sent(11_500_000)) + 500_000 == Grace(Sent(10_000_000)) + 1_500_000
    ensures !Nests(0, 500_000) && Sent(500_000) == 0
  {
  }

  /** Whatever the timeouts, a level is short by less than a millisecond. */
  lemma ShortfallIsUnderAMillisecond(inner: nat, final: nat)
    ensures Grace(Sent(inner + final)) + MS > Grace(Sent(inner)) + final
  {
    SentSplits(inner, final);
  }

  /** Duration.Milliseconds, which truncates toward zero. */
  function Milliseconds(t: int): int {
    if t < 0 then -(-t / MS) else t / MS
  }

  lemma MillisecondsTruncate(t: int)
    ensures t >= 0 ==> Milliseconds(t) * 1_000_000 <= t < (Milliseconds(t) + 1) * 1_000_000
    ensures t < 0 ==> (Milliseconds(t) - 1) * 1_000_000 < t <= Milliseconds(t) * 1_000_000
  {
  }

  /**
    A level with its own final upload around another: with whole milliseconds it waits long
    enough, otherwise it is short by less than one; what it sends inside is accepted there.
  */
  predicate LevelOk(inner: nat, outer: nat, final: nat) {
    && outer == inner + final <= DAY
    && (final % MS == 0 ==> Grace(Sent(outer)) >= Grace(Sent(inner)) + final)
    && Grace(Sent(outer)) + MS > Grace(Sent(inner)) + final
    && 0 <= Milliseconds(inner) <= DAY / MS && Milliseconds(inner) * MS == Sent(inner)
  }

  lemma LevelsAreOk(inner: nat, outer: nat, final: nat)
    requires outer == inner + final <= DAY
    ensures LevelOk(inner, outer, final)
  {
    NestsIff(inner, final);
    ShortfallIsUnderAMillisecond(inner, final);
  }
}
