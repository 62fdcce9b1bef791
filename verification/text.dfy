/** `str::split` on a single separator character, and its inverse `join`. */
module Text {

  /** The parts glued back together with the separator between neighbours. */
  function Join(parts: seq<string>, sep: char): string
    requires 0 < |parts|
    decreases |parts|
  {
    if |parts| == 1 then parts[0] else parts[0] + [sep] + Join(parts[1..], sep)
  }

  predicate NoneContains(parts: seq<string>, sep: char) {
    forall i :: 0 <= i < |parts| ==> sep !in parts[i]
  }

  /** `s.split(sep)`: the maximal separator-free pieces of `s`, in order; the
      empty text yields one empty piece, and two adjacent separators an empty
      piece between them. */
  function Split(s: string, sep: char): (parts: seq<string>)
    ensures 0 < |parts| && NoneContains(parts, sep)
    ensures Join(parts, sep) == s
    decreases |s|
  {
    if |s| == 0 then
      [""]
    else
      var rest := Split(s[1..], sep);
      if s[0] == sep then
        assert ([""] + rest)[1..] == rest;
        [""] + rest
      else
        var parts := [[s[0]] + rest[0]] + rest[1..];
        assert parts[1..] == rest[1..];
        assert s == [s[0]] + s[1..];
        parts
  }

  /** A piece without the separator is a whole part of its own. */
  lemma {:induction false} SplitField(a: string, sep: char)
    requires sep !in a
    ensures Split(a, sep) == [a]
    decreases |a|
  {
    if |a| > 0 {
      SplitField(a[1..], sep);
      assert [a[0]] + a[1..] == a;
    }
  }

  /** Splitting a text that starts with a separator-free field and a separator
      yields that field followed by the split of the rest. */
  lemma {:induction false} SplitAfterField(a: string, t: string, sep: char)
    requires sep !in a
    ensures Split(a + [sep] + t, sep) == [a] + Split(t, sep)
    decreases |a|
  {
    var s := a + [sep] + t;
    if |a| == 0 {
      assert s == [sep] + t;
      assert s[1..] == t;
    } else {
      assert s[1..] == a[1..] + [sep] + t;
      SplitAfterField(a[1..], t, sep);
      assert [a[0]] + a[1..] == a;
    }
  }

  /** Splitting inverts joining separator-free parts. */
  lemma {:induction false} SplitJoin(parts: seq<string>, sep: char)
    requires 0 < |parts| && NoneContains(parts, sep)
    ensures Split(Join(parts, sep), sep) == parts
    decreases |parts|
  {
    if |parts| == 1 {
      SplitField(parts[0], sep);
    } else {
      assert NoneContains(parts[1..], sep);
      SplitJoin(parts[1..], sep);
      SplitAfterField(parts[0], Join(parts[1..], sep), sep);
      assert [parts[0]] + parts[1..] == parts;
    }
  }
}
