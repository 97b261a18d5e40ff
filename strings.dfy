/** Python's `str.join`, used both to join rendered paragraphs and to list the
    supported file types in an error message. */
module Strings {

  /** Sum of the lengths of all parts. */
  function TotalLength(parts: seq<string>): nat
  {
    if |parts| == 0 then 0 else |parts[0]| + TotalLength(parts[1..])
  }

  /** `sep.join(parts)`: no separator before the first part or after the last;
      the result starts with the first part. */
  function Join(sep: string, parts: seq<string>): (r: string)
    ensures |parts| == 0 ==> r == ""
    ensures |parts| > 0 ==> |parts[0]| <= |r| && r[..|parts[0]|] == parts[0]
  {
    if |parts| == 0 then ""
    else if |parts| == 1 then parts[0]
    else
      var rest := Join(sep, parts[1..]);
      parts[0] + sep + rest
  }

  /** One part in front of a non-empty list is followed by one separator. */
  lemma JoinCons(sep: string, x: string, rest: seq<string>)
    requires |rest| > 0
    ensures Join(sep, [x] + rest) == x + sep + Join(sep, rest)
  {
    assert ([x] + rest)[1..] == rest;
  }

  /** A character put in front of the first part ends up in front of the
      joined string. */
  lemma JoinPrependChar(sep: string, c: char, parts: seq<string>)
    requires |parts| > 0
    ensures Join(sep, [[c] + parts[0]] + parts[1..]) == [c] + Join(sep, parts)
  {
    var head, tail := parts[0], parts[1..];
    var first := [c] + head;
    if |tail| > 0 {
      var rest := Join(sep, tail);
      JoinCons(sep, first, tail);
      JoinCons(sep, head, tail);
      assert parts == [head] + tail;
      assert first + sep + rest == [c] + (head + sep + rest);
    }
  }

  /** The length of the joined string: every part, and one separator between
      each two neighbours. */
  lemma {:induction false} JoinLength(sep: string, parts: seq<string>)
    requires |parts| > 0
    ensures |Join(sep, parts)| == TotalLength(parts) + (|parts| - 1) * |sep|
  {
    if |parts| > 1 {
      JoinLength(sep, parts[1..]);
      assert (|parts| - 1) * |sep| == |sep| + (|parts| - 2) * |sep|;
    }
  }

  /** Where part `i` starts in the joined string: after the parts before it,
      each followed by one separator. */
  function Offset(sep: string, parts: seq<string>, i: nat): nat
    requires i <= |parts|
  {
    if i == 0 then 0 else |parts[0]| + |sep| + Offset(sep, parts[1..], i - 1)
  }

  /** The next part starts one separator after the end of part `i`. */
  lemma {:induction false} OffsetStep(sep: string, parts: seq<string>, i: nat)
    requires i < |parts|
    ensures Offset(sep, parts, i + 1) == Offset(sep, parts, i) + |parts[i]| + |sep|
  {
    if i > 0 {
      OffsetStep(sep, parts[1..], i - 1);
      assert parts[1..][i - 1] == parts[i];
    }
  }

  /** A slice of the second half of a concatenation. */
  lemma SliceOfSuffix(x: string, y: string, a: nat, b: nat)
    requires a <= b <= |y|
    ensures (x + y)[|x| + a..|x| + b] == y[a..b]
  {
  }

  /** The contents of the joined string: part `i` sits at its offset, and the
      last part ends the string. With `JoinSeparatorAt` and `OffsetStep` these
      fix every character of the result. */
  lemma {:induction false} JoinPartAt(sep: string, parts: seq<string>, i: nat)
    requires i < |parts|
    ensures var o, j := Offset(sep, parts, i), Join(sep, parts);
            && o + |parts[i]| <= |j|
            && j[o..o + |parts[i]|] == parts[i]
            && (i + 1 == |parts| ==> o + |parts[i]| == |j|)
  {
    if |parts| > 1 && i > 0 {
      var head := parts[0] + sep;
      var rest := Join(sep, parts[1..]);
      assert Join(sep, parts) == head + rest;
      JoinPartAt(sep, parts[1..], i - 1);
      assert parts[1..][i - 1] == parts[i];
      var o := Offset(sep, parts[1..], i - 1);
      assert Offset(sep, parts, i) == |head| + o;
      SliceOfSuffix(head, rest, o, o + |parts[i]|);
    }
  }

  /** One separator follows every part but the last. */
  lemma {:induction false} JoinSeparatorAt(sep: string, parts: seq<string>, i: nat)
    requires i + 1 < |parts|
    ensures var e, j := Offset(sep, parts, i) + |parts[i]|, Join(sep, parts);
            && e + |sep| <= |j|
            && j[e..e + |sep|] == sep
  {
    var head := parts[0] + sep;
    var rest := Join(sep, parts[1..]);
    assert Join(sep, parts) == head + rest;
    if i > 0 {
      JoinSeparatorAt(sep, parts[1..], i - 1);
      assert parts[1..][i - 1] == parts[i];
      var e := Offset(sep, parts[1..], i - 1) + |parts[i]|;
      assert Offset(sep, parts, i) + |parts[i]| == |head| + e;
      SliceOfSuffix(head, rest, e, e + |sep|);
    } else {
      assert (head + rest)[|parts[0]|..|head|] == sep;
    }
  }

  /** Joining a concatenation is joining each half and putting one separator
      between them. */
  lemma {:induction false} JoinAppend(sep: string, a: seq<string>, b: seq<string>)
    requires |a| > 0 && |b| > 0
    ensures Join(sep, a + b) == Join(sep, a) + sep + Join(sep, b)
  {
    var ab := a + b;
    assert ab[0] == a[0];
    if |a| == 1 {
      assert ab[1..] == b;
      assert Join(sep, ab) == a[0] + sep + Join(sep, b);
    } else {
      assert ab[1..] == a[1..] + b;
      JoinAppend(sep, a[1..], b);
      calc {
        Join(sep, ab);
        a[0] + sep + Join(sep, a[1..] + b);
        a[0] + sep + (Join(sep, a[1..]) + sep + Join(sep, b));
        (a[0] + sep + Join(sep, a[1..])) + sep + Join(sep, b);
      }
    }
  }
}
