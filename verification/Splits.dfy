/** Splitting a text at a separator and joining it again. */
module Splits {

  /** Python's `split` with a one-character separator: never empty, and the empty text has one
      empty part. */
  function Split<T(==)>(text: seq<T>, sep: T): (parts: seq<seq<T>>)
    ensures |parts| >= 1
  {
    if text == [] then [[]]
    else if text[0] == sep then [[]] + Split(text[1..], sep)
    else
      var rest := Split(text[1..], sep);
      [[text[0]] + rest[0]] + rest[1..]
  }

  function Join<T>(parts: seq<seq<T>>, sep: T): seq<T>
    requires |parts| >= 1
  {
    if |parts| == 1 then parts[0] else parts[0] + [sep] + Join(parts[1..], sep)
  }

  /** Splitting loses nothing, so two different texts have different parts. */
  lemma {:induction false} JoinSplit<T>(text: seq<T>, sep: T)
    ensures Join(Split(text, sep), sep) == text
  {
    if text != [] {
      JoinSplit(text[1..], sep);
      var rest := Split(text[1..], sep);
      if text[0] == sep {
        assert ([[]] + rest)[1..] == rest;
      } else {
        var parts := [[text[0]] + rest[0]] + rest[1..];
        if |rest| > 1 {
          assert parts[1..] == rest[1..];
          assert [text[0]] + rest[0] + [sep] + Join(rest[1..], sep) ==
            [text[0]] + (rest[0] + [sep] + Join(rest[1..], sep));
        }
      }
    }
  }

  /** Parts without the separator come back from the joined text. */
  lemma {:induction false} SplitJoin<T>(parts: seq<seq<T>>, sep: T)
    requires |parts| >= 1 && forall part <- parts :: sep !in part
    ensures Split(Join(parts, sep), sep) == parts
  {
    if |parts| == 1 {
      SplitOne(parts[0], sep);
      assert parts == [parts[0]];
    } else {
      SplitJoin(parts[1..], sep);
      SplitAt(parts[0], Join(parts[1..], sep), sep);
      assert parts == [parts[0]] + parts[1..];
    }
  }

  lemma {:induction false} SplitOne<T>(part: seq<T>, sep: T)
    requires sep !in part
    ensures Split(part, sep) == [part]
  {
    if part != [] {
      SplitOne(part[1..], sep);
      assert part == [part[0]] + part[1..] && part[0] in part;
    }
  }

  lemma {:induction false} SplitAt<T>(part: seq<T>, rest: seq<T>, sep: T)
    requires sep !in part
    ensures Split(part + [sep] + rest, sep) == [part] + Split(rest, sep)
  {
    var text := part + [sep] + rest;
    if part == [] {
      assert text[1..] == rest;
    } else {
      assert text[1..] == part[1..] + [sep] + rest;
      SplitAt(part[1..], rest, sep);
      assert text[0] == part[0] && part[0] in part && part == [part[0]] + part[1..];
      assert ([part[1..]] + Split(rest, sep))[1..] == Split(rest, sep);
    }
  }

  /** No part of a split holds the separator, nor anything the text did not hold. */
  lemma {:induction false} PartsOfSplit<T>(text: seq<T>, sep: T)
    ensures forall part <- Split(text, sep) :: sep !in part && forall x <- part :: x in text
  {
    if text != [] {
      PartsOfSplit(text[1..], sep);
      forall part <- Split(text, sep)
        ensures sep !in part && forall x <- part :: x in text
      {
        assert forall x <- text[1..] :: x in text;
        if part in Split(text[1..], sep) {
        } else if text[0] != sep {
          assert part == [text[0]] + Split(text[1..], sep)[0];
        }
      }
    }
  }

  /** Everything but separators is in some part. */
  lemma {:induction false} SplitKeeps<T>(text: seq<T>, sep: T, x: T)
    requires x in text && x != sep
    ensures exists part <- Split(text, sep) :: x in part
  {
    var rest := Split(text[1..], sep);
    if text[0] == x {
      assert x in Split(text, sep)[0];
    } else {
      SplitKeeps(text[1..], sep, x);
      var part :| part in rest && x in part;
      var i :| 0 <= i < |rest| && rest[i] == part;
      if text[0] == sep {
        assert Split(text, sep)[i + 1] == part;
      } else if i == 0 {
        assert x in Split(text, sep)[0];
      } else {
        assert Split(text, sep)[i] == part;
      }
    }
  }
}
