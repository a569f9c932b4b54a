/** Player ids and the ordering JavaScript's `>` gives them.
    A player id is a JavaScript string: a sequence of UTF-16 code units.
    Relational comparison of two strings compares code units from the left;
    when one string is a proper prefix of the other, the shorter is the smaller. */
module PlayerIds {

  /** One UTF-16 code unit. */
  type CodeUnit = c: int | 0 <= c < 0x1_0000

  type PlayerId = seq<CodeUnit>

  /** `a < b` on JavaScript strings. */
  predicate Less(a: PlayerId, b: PlayerId)
    decreases |a|
  {
    if |a| == 0 then |b| > 0
    else if |b| == 0 then false
    else if a[0] != b[0] then a[0] < b[0]
    else Less(a[1..], b[1..])
  }

  /** `a > b` on JavaScript strings. */
  predicate Greater(a: PlayerId, b: PlayerId)
  {
    Less(b, a)
  }

  lemma {:induction false} LessIrreflexive(a: PlayerId)
    ensures !Less(a, a)
    decreases |a|
  {
    if |a| > 0 {
      LessIrreflexive(a[1..]);
    }
  }

  lemma {:induction false} LessAsymmetric(a: PlayerId, b: PlayerId)
    ensures !(Less(a, b) && Less(b, a))
    decreases |a|
  {
    if |a| > 0 && |b| > 0 && a[0] == b[0] {
      LessAsymmetric(a[1..], b[1..]);
    }
  }

  lemma {:induction false} LessTotal(a: PlayerId, b: PlayerId)
    ensures a == b || Less(a, b) || Less(b, a)
    decreases |a|
  {
    if |a| > 0 && |b| > 0 && a[0] == b[0] {
      LessTotal(a[1..], b[1..]);
      if a[1..] == b[1..] {
        assert a == [a[0]] + a[1..] && b == [b[0]] + b[1..];
      }
    }
  }

  lemma {:induction false} LessTransitive(a: PlayerId, b: PlayerId, c: PlayerId)
    requires Less(a, b) && Less(b, c)
    ensures Less(a, c)
    decreases |a|
  {
    if |a| > 0 && a[0] == b[0] && b[0] == c[0] {
      LessTransitive(a[1..], b[1..], c[1..]);
    }
  }

  /** The tie-break `myPlayerId > this.playerId` run on both clients:
      with equal ids neither side passes it, with distinct ids exactly one does. */
  lemma TieBreak(a: PlayerId, b: PlayerId)
    ensures a == b ==> !Greater(a, b) && !Greater(b, a)
    ensures a != b ==> (Greater(a, b) <==> !Greater(b, a))
  {
    LessIrreflexive(a);
    LessAsymmetric(a, b);
    LessTotal(a, b);
  }
}
