/**
 * String helpers shared by the parser base and the HTML rendering:
 * Python's `sep.join(parts)` and, as its partner, `str.split`.
 */
module Text {

  /** `sep.join(parts)`: the parts in order, with `sep` between neighbours. */
  function Join(parts: seq<string>, sep: string): string
  {
    if |parts| == 0 then ""
    else if |parts| == 1 then parts[0]
    else parts[0] + sep + Join(parts[1..], sep)
  }

  /**
   * `s.split(sep)` for a non-empty separator: the pieces between the occurrences of `sep`, found
   * left to right; empty pieces are kept, so the result is never empty.
   */
  function SplitOn(s: string, sep: string): (r: seq<string>)
    requires |sep| > 0
    ensures |r| >= 1
    decreases |s|
  {
    if |s| == 0 then [""]
    else if sep <= s then [""] + SplitOn(s[|sep|..], sep)
    else
      var rest := SplitOn(s[1..], sep);
      [[s[0]] + rest[0]] + rest[1..]
  }

  /** A piece that cannot start a separator, followed by more text, stays at the front of the split. */
  lemma {:induction false} SplitOnPrefix(p: string, t: string, sep: string)
    requires |sep| > 0 && sep[0] !in p
    ensures SplitOn(p + t, sep) == [p + SplitOn(t, sep)[0]] + SplitOn(t, sep)[1..]
  {
    if |p| > 0 {
      var r := SplitOn(t, sep);
      assert (p + t)[0] == p[0] && (p + t)[1..] == p[1..] + t;
      assert !(sep <= p + t);
      SplitOnPrefix(p[1..], t, sep);
      var rest := SplitOn(p[1..] + t, sep);
      assert rest[0] == p[1..] + r[0] && rest[1..] == r[1..];
      assert [p[0]] + (p[1..] + r[0]) == p + r[0];
    } else {
      var r := SplitOn(t, sep);
      assert p + t == t && p + r[0] == r[0] && r == [r[0]] + r[1..];
    }
  }

  /**
   * Joining with a separator whose first character occurs in no part can be undone by splitting;
   * `join` of no parts is "", which splits into one empty piece, hence the non-empty list.
   */
  lemma {:induction false} SplitOnJoin(parts: seq<string>, sep: string)
    requires |parts| > 0 && |sep| > 0
    requires forall i :: 0 <= i < |parts| ==> sep[0] !in parts[i]
    ensures SplitOn(Join(parts, sep), sep) == parts
  {
    if |parts| == 1 {
      SplitOnPrefix(parts[0], "", sep);
      assert parts[0] + "" == parts[0];
    } else {
      var tail := Join(parts[1..], sep);
      SplitOnJoin(parts[1..], sep);
      assert Join(parts, sep) == parts[0] + (sep + tail);
      SplitOnPrefix(parts[0], sep + tail, sep);
      assert sep <= sep + tail && (sep + tail)[|sep|..] == tail;
      assert SplitOn(sep + tail, sep) == [""] + parts[1..];
      assert parts[0] + "" == parts[0];
      assert parts == [parts[0]] + parts[1..];
    }
  }
}
