/**
 * `Array.prototype.join` and `String.prototype.split` for a one-character
 * separator. The export builds its CSV with joins; the split is the inverse
 * that the lemmas use to say how many lines and cells the export holds.
 */
module Text {

  /** `parts.join(sep)`: the empty list joins to "". */
  function Join(parts: seq<string>, sep: char): (s: string)
    ensures |parts| == 1 ==> s == parts[0]
    ensures |parts| >= 2 ==> sep in s && parts[0] + [sep] <= s
  {
    if |parts| == 0 then "" else if |parts| == 1 then parts[0] else parts[0] + [sep] + Join(parts[1..], sep)
  }

  /** `s.split(sep)`: the pieces between separators; "" splits into [""]. */
  function Split(s: string, sep: char): (parts: seq<string>)
    ensures |parts| >= 1
  {
    if s == [] then [""]
    else if s[0] == sep then [""] + Split(s[1..], sep)
    else var t := Split(s[1..], sep); [[s[0]] + t[0]] + t[1..]
  }

  /** No separator in p: the whole of p is the first piece. */
  lemma {:induction false} SplitPrefix(p: string, sep: char, rest: string)
    requires sep !in p
    ensures Split(p, sep) == [p]
    ensures Split(p + [sep] + rest, sep) == [p] + Split(rest, sep)
  {
    if p != [] {
      SplitPrefix(p[1..], sep, rest);
      assert (p + [sep] + rest)[1..] == p[1..] + [sep] + rest;
      assert [p[0]] + p[1..] == p;
    } else {
      assert p + [sep] + rest == [sep] + rest;
      assert ([sep] + rest)[1..] == rest;
    }
  }

  /** Splitting a join gives back the parts, provided no part holds the separator. */
  lemma {:induction false} SplitJoin(parts: seq<string>, sep: char)
    requires |parts| >= 1
    requires forall i :: 0 <= i < |parts| ==> sep !in parts[i]
    ensures Split(Join(parts, sep), sep) == parts
  {
    if |parts| == 1 {
      SplitPrefix(parts[0], sep, "");
    } else {
      SplitJoin(parts[1..], sep);
      SplitPrefix(parts[0], sep, Join(parts[1..], sep));
      assert [parts[0]] + parts[1..] == parts;
    }
  }

  /** A character that is neither the separator nor in any part is not in the join. */
  lemma {:induction false} JoinAvoids(parts: seq<string>, sep: char, c: char)
    requires c != sep
    requires forall i :: 0 <= i < |parts| ==> c !in parts[i]
    ensures c !in Join(parts, sep)
  {
    if |parts| > 1 {
      JoinAvoids(parts[1..], sep, c);
    }
  }
}
