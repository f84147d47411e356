/**
 * String helpers that mirror the JavaScript operations the application relies on:
 * truthiness of a nullable string, `Array.prototype.join`, and substring containment
 * (used to state what a rendered prompt mentions).
 */
module Text {
  import opened Wrappers

  /** JavaScript truthiness of a nullable string: `null`, `undefined` and `""` are falsy. */
  predicate Truthy(s: Option<string>) {
    s.Some? && s.value != ""
  }

  /** `a || b` on nullable strings: `a` when it is truthy, otherwise `b`. */
  function Or(a: Option<string>, b: Option<string>): Option<string> {
    if Truthy(a) then a else b
  }

  /** `parts.join(sep)`: the parts in order, with `sep` between neighbours. */
  function Join(parts: seq<string>, sep: string): string {
    if |parts| == 0 then ""
    else if |parts| == 1 then parts[0]
    else parts[0] + sep + Join(parts[1..], sep)
  }

  /** `part` occurs in `whole` starting at offset `k`. */
  predicate OccursAt(part: string, whole: string, k: nat) {
    k + |part| <= |whole| && whole[k..k + |part|] == part
  }

  /** `whole.includes(part)`. */
  ghost predicate Contains(whole: string, part: string) {
    exists k: nat :: OccursAt(part, whole, k)
  }

  /** A string that ends with `part`. */
  predicate EndsWith(whole: string, part: string) {
    |part| <= |whole| && whole[|whole| - |part|..] == part
  }

  lemma OccursAfterPrefix(part: string, whole: string, k: nat, prefix: string)
    requires OccursAt(part, whole, k)
    ensures OccursAt(part, prefix + whole, |prefix| + k)
  {
    assert (prefix + whole)[|prefix| + k..|prefix| + k + |part|] == whole[k..k + |part|];
  }

  /** Containment is transitive: a part of a part is a part of the whole. */
  lemma ContainsTransitive(whole: string, mid: string, part: string)
    requires Contains(whole, mid) && Contains(mid, part)
    ensures Contains(whole, part)
  {
    var i: nat :| OccursAt(mid, whole, i);
    var j: nat :| OccursAt(part, mid, j);
    assert mid == whole[i..i + |mid|];
    forall n | 0 <= n < |part|
      ensures whole[i + j..i + j + |part|][n] == part[n]
    {
      assert part[n] == mid[j + n] == whole[i + j + n];
    }
    assert OccursAt(part, whole, i + j);
  }

  /** A string placed between a prefix and a suffix is contained in the result. */
  lemma ContainsInfix(prefix: string, part: string, suffix: string)
    ensures Contains(prefix + part + suffix, part)
  {
    assert (prefix + part + suffix)[|prefix|..|prefix| + |part|] == part;
    assert OccursAt(part, prefix + part + suffix, |prefix|);
  }

  /** Every part of a join occurs in the joined string. */
  lemma {:induction false} JoinContainsEach(parts: seq<string>, sep: string, i: nat)
    requires i < |parts|
    ensures Contains(Join(parts, sep), parts[i])
  {
    if |parts| == 1 {
      assert OccursAt(parts[0], Join(parts, sep), 0);
    } else if i == 0 {
      ContainsInfix("", parts[0], sep + Join(parts[1..], sep));
      assert "" + parts[0] + (sep + Join(parts[1..], sep)) == Join(parts, sep);
    } else {
      JoinContainsEach(parts[1..], sep, i - 1);
      var k: nat :| OccursAt(parts[i], Join(parts[1..], sep), k);
      OccursAfterPrefix(parts[i], Join(parts[1..], sep), k, parts[0] + sep);
      assert OccursAt(parts[i], Join(parts, sep), |parts[0] + sep| + k);
    }
  }

  /** A non-empty join ends with its last part. */
  lemma {:induction false} JoinEndsWithLast(parts: seq<string>, sep: string)
    requires |parts| > 0
    ensures EndsWith(Join(parts, sep), parts[|parts| - 1])
  {
    if |parts| > 1 {
      JoinEndsWithLast(parts[1..], sep);
      var w := Join(parts[1..], sep);
      var last := parts[|parts| - 1];
      assert (parts[0] + sep + w)[|parts[0] + sep + w| - |last|..] == w[|w| - |last|..];
    }
  }

  /** Joining keeps order: the join of a concatenation is the two joins around one separator. */
  lemma {:induction false} JoinAppend(a: seq<string>, b: seq<string>, sep: string)
    requires |a| > 0 && |b| > 0
    ensures Join(a + b, sep) == Join(a, sep) + sep + Join(b, sep)
  {
    if |a| == 1 {
      assert (a + b)[1..] == b;
    } else {
      assert (a + b)[1..] == a[1..] + b;
      JoinAppend(a[1..], b, sep);
    }
  }
}
