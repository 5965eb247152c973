/**
  The key codec: a key such as "a:b:c" names the path ["a", "b", "c"] into a
  nested configuration tree. `Join` is `key(...segments)` (the arguments joined
  with ':') and `Split` is `path(key)` (`key.split(':')`). Both lib/nconf.js
  and lib/nconf/utils.js define this same pair.
 */
module Keys {

  const Sep: char := ':'

  /** `segments.join(':')`; an empty list joins to the empty string. */
  function Join(segments: seq<string>): string
  {
    if |segments| == 0 then ""
    else if |segments| == 1 then segments[0]
    else segments[0] + [Sep] + Join(segments[1..])
  }

  /**
    `key.split(':')`: every ':' separates two segments, so the result has one
    more segment than `key` has separators, and none of them contains one.
   */
  function Split(key: string): (r: seq<string>)
    ensures |r| >= 1
    ensures forall i :: 0 <= i < |r| ==> Sep !in r[i]
    ensures |r| == Count(key) + 1
  {
    if |key| == 0 then [""]
    else
      var rest := Split(key[1..]);
      if key[0] == Sep then [""] + rest
      else [[key[0]] + rest[0]] + rest[1..]
  }

  /** The number of separators in `s`. */
  function Count(s: string): nat
  {
    if |s| == 0 then 0 else (if s[0] == Sep then 1 else 0) + Count(s[1..])
  }

  /** Splitting a key and joining the segments gives the key back, for every key. */
  lemma {:induction false} JoinSplit(key: string)
    ensures Join(Split(key)) == key
  {
    if |key| > 0 {
      JoinSplit(key[1..]);
      var rest := Split(key[1..]);
      if key[0] == Sep {
        assert Split(key) == [""] + rest;
        assert ([""] + rest)[1..] == rest;
      } else {
        var r := Split(key);
        assert r[0] == [key[0]] + rest[0] && r[1..] == rest[1..];
        assert key == [key[0]] + key[1..];
      }
    }
  }

  /** A separator-free string is a single segment. */
  lemma {:induction false} SplitSingle(s: string)
    requires Sep !in s
    ensures Split(s) == [s]
  {
    if |s| > 0 {
      SplitSingle(s[1..]);
      assert s == [s[0]] + s[1..];
    }
  }

  /** The path of a key that starts with `c`: a separator opens a new empty segment, anything else joins the first. */
  lemma SplitCons(c: char, s: string)
    ensures Split([c] + s) == if c == Sep then [""] + Split(s) else [[c] + Split(s)[0]] + Split(s)[1..]
  {
    assert ([c] + s)[0] == c && ([c] + s)[1..] == s;
  }

  /** Prepending a character to the first of two segment lists, then appending the second, in either order. */
  lemma ConsThenAppend(c: char, rest: seq<string>, tail: seq<string>)
    requires |rest| >= 1
    ensures (if c == Sep then [""] + (rest + tail) else [[c] + (rest + tail)[0]] + (rest + tail)[1..])
         == (if c == Sep then [""] + rest else [[c] + rest[0]] + rest[1..]) + tail
  {
    if c != Sep {
      assert (rest + tail)[0] == rest[0] && (rest + tail)[1..] == rest[1..] + tail;
    }
  }

  /** The path of `key + ':' + nested` is the path of `key` followed by the path of `nested`. */
  lemma {:induction false} SplitAppend(key: string, nested: string)
    ensures Split(key + [Sep] + nested) == Split(key) + Split(nested)
  {
    if |key| == 0 {
      assert key + [Sep] + nested == [Sep] + nested;
      SplitCons(Sep, nested);
    } else {
      var c, cs := key[0], key[1..];
      assert key == [c] + cs;
      assert key + [Sep] + nested == [c] + (cs + [Sep] + nested);
      SplitAppend(cs, nested);
      SplitCons(c, cs + [Sep] + nested);
      SplitCons(c, cs);
      ConsThenAppend(c, Split(cs), Split(nested));
    }
  }

  /** Joining non-empty, separator-free segments and splitting the result gives the segments back. */
  lemma {:induction false} SplitJoin(segments: seq<string>)
    requires |segments| >= 1
    requires forall i :: 0 <= i < |segments| ==> Sep !in segments[i]
    ensures Split(Join(segments)) == segments
  {
    if |segments| == 1 {
      SplitSingle(segments[0]);
    } else {
      SplitJoin(segments[1..]);
      SplitSingle(segments[0]);
      SplitAppend(segments[0], Join(segments[1..]));
      assert [segments[0]] + segments[1..] == segments;
    }
  }

  /** Without the separator-free condition the round trip fails: ["a:b"] joins to a key of two segments. */
  lemma SplitJoinNeedsSeparatorFreeSegments()
    ensures Split(Join(["a:b"])) != ["a:b"]
  {
    assert |Split("a:b")| == Count("a:b") + 1 == 2;
  }
}
