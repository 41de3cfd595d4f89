/**
  Line handling used to render alert messages: dropping empty lines,
  joining lines with a separator (JavaScript `Array.prototype.join`), and
  substring containment.
*/
module Text {

  /** `lines.filter(line => line !== "")`: the non-empty lines, in their original order. */
  function DropEmpty(lines: seq<string>): (kept: seq<string>)
    ensures forall i :: 0 <= i < |kept| ==> kept[i] != ""
    ensures forall x :: x in kept <==> x in lines && x != ""
    ensures |kept| <= |lines|
    ensures (forall i :: 0 <= i < |lines| ==> lines[i] != "") ==> kept == lines
    ensures forall x :: multiset(kept)[x] == if x == "" then 0 else multiset(lines)[x]
  {
    if |lines| == 0 then []
    else
      assert lines == [lines[0]] + lines[1..];
      if lines[0] == "" then DropEmpty(lines[1..])
      else [lines[0]] + DropEmpty(lines[1..])
  }

  /**
    The filter works line by line: filtering a concatenation filters each
    part in place. With the one-line case this fixes the order of the kept
    lines, not only which lines are kept and how often.
  */
  lemma {:induction false} DropEmptyAppend(a: seq<string>, b: seq<string>)
    ensures DropEmpty(a + b) == DropEmpty(a) + DropEmpty(b)
  {
    if |a| > 0 {
      assert (a + b)[0] == a[0];
      assert (a + b)[1..] == a[1..] + b;
      DropEmptyAppend(a[1..], b);
    } else {
      assert a + b == b;
    }
  }

  /** One line is kept exactly when it is not empty. */
  lemma DropEmptyOne(line: string)
    ensures DropEmpty([line]) == if line == "" then [] else [line]
  {
    assert [line][1..] == [];
  }

  /** `lines.join(sep)`: the lines with one separator between neighbours. */
  function Join(lines: seq<string>, sep: char): string
  {
    if |lines| == 0 then ""
    else if |lines| == 1 then lines[0]
    else lines[0] + [sep] + Join(lines[1..], sep)
  }

  /** `part` occurs in `s` starting at position `k`. */
  predicate OccursAt(s: string, part: string, k: nat)
  {
    k + |part| <= |s| && s[k..k + |part|] == part
  }

  /** `s.includes(part)`. */
  ghost predicate Contains(s: string, part: string)
  {
    exists k: nat :: OccursAt(s, part, k)
  }

  /** Whatever is concatenated around `part` still contains it. */
  lemma ContainsMiddle(before: string, part: string, after: string)
    ensures Contains(before + part + after, part)
  {
    var s := before + part + after;
    assert s[|before|..|before| + |part|] == part;
    assert OccursAt(s, part, |before|);
  }

  /** Containment is transitive: a part of a part of `s` is a part of `s`. */
  lemma ContainsTransitive(s: string, t: string, part: string)
    requires Contains(s, t) && Contains(t, part)
    ensures Contains(s, part)
  {
    var k: nat :| OccursAt(s, t, k);
    var j: nat :| OccursAt(t, part, j);
    assert t == s[k..k + |t|];
    forall n | 0 <= n < |part|
      ensures s[k + j + n] == part[n]
    {
      assert part[n] == t[j + n] == s[k + j + n];
    }
    assert s[k + j..k + j + |part|] == part;
    assert OccursAt(s, part, k + j);
  }

  /** Every line occurs in the joined text. */
  lemma {:induction false} JoinContainsEach(lines: seq<string>, sep: char, i: nat)
    requires i < |lines|
    ensures Contains(Join(lines, sep), lines[i])
  {
    if |lines| == 1 {
      ContainsMiddle("", lines[0], "");
      assert "" + lines[0] + "" == lines[0];
    } else if i == 0 {
      ContainsMiddle("", lines[0], [sep] + Join(lines[1..], sep));
      assert "" + lines[0] + ([sep] + Join(lines[1..], sep)) == Join(lines, sep);
    } else {
      JoinContainsEach(lines[1..], sep, i - 1);
      ContainsMiddle(lines[0] + [sep], Join(lines[1..], sep), "");
      assert lines[0] + [sep] + Join(lines[1..], sep) + "" == Join(lines, sep);
      ContainsTransitive(Join(lines, sep), Join(lines[1..], sep), lines[i]);
    }
  }
}
