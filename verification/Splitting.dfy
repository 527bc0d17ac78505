/** Splitting a text at every occurrence of a separator, and joining parts with it. */
module Splitting {

  function Split(text: string, sep: char): (parts: seq<string>)
    ensures parts != []
  {
    if text == "" then [""]
    else
      var rest := Split(text[1..], sep);
      if text[0] == sep then [""] + rest else [[text[0]] + rest[0]] + rest[1..]
  }

  function Join(parts: seq<string>, sep: char): string
    requires parts != []
  {
    if |parts| == 1 then parts[0] else Join(parts[..|parts| - 1], sep) + [sep] + parts[|parts| - 1]
  }

  /** `Join` read from the left. */
  lemma {:induction false} JoinCons(first: string, rest: seq<string>, sep: char)
    requires rest != []
    ensures Join([first] + rest, sep) == first + [sep] + Join(rest, sep)
    decreases |rest|
  {
    var all := [first] + rest;
    var n := |rest| - 1;
    if n == 0 {
      assert all[..1] == [first];
    } else {
      assert all[..|all| - 1] == [first] + rest[..n];
      JoinCons(first, rest[..n], sep);
      var middle := Join(rest[..n], sep);
      assert first + [sep] + middle + [sep] + rest[n] == first + [sep] + (middle + [sep] + rest[n]);
    }
  }

  lemma JoinExtend(c: char, rest: seq<string>, sep: char)
    requires rest != []
    ensures Join([[c] + rest[0]] + rest[1..], sep) == [c] + Join(rest, sep)
  {
    var tail := rest[1..];
    if tail == [] {
      assert rest == [rest[0]] && [[c] + rest[0]] + tail == [[c] + rest[0]];
    } else {
      JoinCons([c] + rest[0], tail, sep);
      JoinCons(rest[0], tail, sep);
      assert rest == [rest[0]] + tail;
      assert [c] + rest[0] + [sep] + Join(tail, sep) == [c] + (rest[0] + [sep] + Join(tail, sep));
    }
  }

  /** Splitting and joining again gives the text back. */
  lemma {:induction false} SplitJoin(text: string, sep: char)
    ensures Join(Split(text, sep), sep) == text
  {
    if text != "" {
      var rest := Split(text[1..], sep);
      SplitJoin(text[1..], sep);
      if text[0] == sep {
        JoinCons("", rest, sep);
        assert "" + [sep] + text[1..] == text;
      } else {
        JoinExtend(text[0], rest, sep);
        assert [text[0]] + text[1..] == text;
      }
    }
  }

  lemma {:induction false} PartsHoldNoSeparator(text: string, sep: char)
    ensures forall i :: 0 <= i < |Split(text, sep)| ==> sep !in Split(text, sep)[i]
  {
    if text != "" {
      PartsHoldNoSeparator(text[1..], sep);
      var first := [text[0]] + Split(text[1..], sep)[0];
      assert forall c :: c in first ==> c == text[0] || c in Split(text[1..], sep)[0];
    }
  }

  /** A text without the separator in front of one is the first part. */
  lemma {:induction false} SplitFirst(part: string, sep: char, rest: string)
    requires sep !in part
    ensures Split(part + [sep] + rest, sep) == [part] + Split(rest, sep)
  {
    var text := part + [sep] + rest;
    if part == "" {
      assert text[1..] == rest;
    } else {
      assert text[1..] == part[1..] + [sep] + rest;
      SplitFirst(part[1..], sep, rest);
      assert [part[0]] + part[1..] == part;
    }
  }

  lemma {:induction false} SplitNothing(part: string, sep: char)
    requires sep !in part
    ensures Split(part, sep) == [part]
  {
    if part != "" {
      SplitNothing(part[1..], sep);
      assert [part[0]] + part[1..] == part;
    }
  }

  /** Joining parts that do not hold the separator and splitting again gives the parts back. */
  lemma {:induction false} JoinSplit(parts: seq<string>, sep: char)
    requires parts != [] && forall i :: 0 <= i < |parts| ==> sep !in parts[i]
    ensures Split(Join(parts, sep), sep) == parts
  {
    if |parts| == 1 {
      SplitNothing(parts[0], sep);
    } else {
      assert parts == [parts[0]] + parts[1..];
      JoinCons(parts[0], parts[1..], sep);
      SplitFirst(parts[0], sep, Join(parts[1..], sep));
      JoinSplit(parts[1..], sep);
    }
  }

  /** A separator between two texts keeps their parts apart. */
  lemma {:induction false} SplitAtSeparator(text: string, sep: char, rest: string)
    ensures Split(text + [sep] + rest, sep) == Split(text, sep) + Split(rest, sep)
  {
    var all := text + [sep] + rest;
    if text == "" {
      assert all[1..] == rest;
    } else {
      assert all[1..] == text[1..] + [sep] + rest;
      SplitAtSeparator(text[1..], sep, rest);
    }
  }
}
