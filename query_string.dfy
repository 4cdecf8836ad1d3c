/** The query-string parser of the redirect handler: the query is split on
    `&`, each segment on `=`, the first two pieces of a segment become a
    (key, value) pair (a missing piece is ""), and the pairs are collected
    into a map in which a repeated key keeps its last value. */
module QueryString {
  import opened Wrappers
  import opened Maps

  /** Rust's `str::split` by one character: the pieces between successive
      occurrences of `sep`, in order. The empty string gives one empty piece,
      and a trailing separator gives a trailing empty piece. */
  function Split(s: string, sep: char): (pieces: seq<string>)
    ensures |pieces| >= 1
    ensures forall i :: 0 <= i < |pieces| ==> sep !in pieces[i]
    decreases |s|
  {
    if |s| == 0 then [""]
    else
      var rest := Split(s[1..], sep);
      if s[0] == sep then [""] + rest
      else [[s[0]] + rest[0]] + rest[1..]
  }

  /** The pieces glued back together with `sep` between neighbours. */
  function Join(pieces: seq<string>, sep: char): string
    requires |pieces| >= 1
    decreases |pieces|
  {
    if |pieces| == 1 then pieces[0]
    else pieces[0] + [sep] + Join(pieces[1..], sep)
  }

  /** Splitting loses nothing: joining the pieces gives the original text. */
  lemma {:induction false} JoinSplit(s: string, sep: char)
    ensures Join(Split(s, sep), sep) == s
    decreases |s|
  {
    if |s| > 0 {
      var rest := Split(s[1..], sep);
      JoinSplit(s[1..], sep);
      if s[0] == sep {
        assert ([""] + rest)[1..] == rest;
      } else if |rest| > 1 {
        var pieces := [[s[0]] + rest[0]] + rest[1..];
        assert pieces[1..] == rest[1..];
        assert Join(rest, sep) == rest[0] + [sep] + Join(rest[1..], sep);
        assert s == [s[0]] + s[1..];
      } else {
        assert s == [s[0]] + s[1..];
      }
    }
  }

  /** A text without the separator is one piece. */
  lemma {:induction false} SplitNoSeparator(s: string, sep: char)
    requires sep !in s
    ensures Split(s, sep) == [s]
    decreases |s|
  {
    if |s| > 0 {
      assert sep !in s[1..] by {
        forall k | 0 <= k < |s[1..]| ensures s[1..][k] != sep { assert s[1..][k] == s[k + 1]; }
      }
      SplitNoSeparator(s[1..], sep);
      assert s == [s[0]] + s[1..];
    }
  }

  /** A separator between two texts splits them apart: the pieces of
      `x + [sep] + y` are those of `x` followed by those of `y`. */
  lemma {:induction false} SplitAround(x: string, y: string, sep: char)
    ensures Split(x + [sep] + y, sep) == Split(x, sep) + Split(y, sep)
    decreases |x|
  {
    var s := x + [sep] + y;
    if |x| == 0 {
      assert s[0] == sep && s[1..] == y;
    } else {
      assert s[0] == x[0];
      assert s[1..] == x[1..] + [sep] + y;
      SplitAround(x[1..], y, sep);
      var left := Split(x[1..], sep);
      var right := Split(y, sep);
      assert Split(s[1..], sep) == left + right;
      if x[0] == sep {
        assert Split(s, sep) == [""] + (left + right);
        assert Split(x, sep) == [""] + left;
      } else {
        assert (left + right)[0] == left[0];
        assert (left + right)[1..] == left[1..] + right;
        assert Split(s, sep) == [[x[0]] + left[0]] + (left[1..] + right);
        assert Split(x, sep) == [[x[0]] + left[0]] + left[1..];
      }
    }
  }

  /** Splitting is the inverse of joining pieces that hold no separator. */
  lemma {:induction false} SplitJoin(pieces: seq<string>, sep: char)
    requires |pieces| >= 1
    requires forall i :: 0 <= i < |pieces| ==> sep !in pieces[i]
    ensures Split(Join(pieces, sep), sep) == pieces
    decreases |pieces|
  {
    SplitNoSeparator(pieces[0], sep);
    if |pieces| > 1 {
      SplitJoin(pieces[1..], sep);
      SplitAround(pieces[0], Join(pieces[1..], sep), sep);
      assert pieces == [pieces[0]] + pieces[1..];
    }
  }

  /** One `&`-segment split on `=`: the first piece is the key, the second
      the value ("" when the segment has no `=`); later pieces are dropped. */
  function Pair(segment: string): (kv: (string, string))
    ensures '=' !in kv.0 && '=' !in kv.1
  {
    var parts := Split(segment, '=');
    (parts[0], if |parts| > 1 then parts[1] else "")
  }

  /** The three shapes a segment can have: no `=` (the value is empty),
      one `=`, or more than one (the value stops at the second `=`). */
  lemma PairOfSegment(key: string, value: string, rest: string)
    requires '=' !in key && '=' !in value
    ensures Pair(key) == (key, "")
    ensures Pair(key + "=" + value) == (key, value)
    ensures Pair(key + "=" + value + "=" + rest) == (key, value)
  {
    SplitNoSeparator(key, '=');
    SplitNoSeparator(value, '=');
    SplitAround(key, value, '=');
    assert key + "=" + value == key + ['='] + value;
    SplitAround(value, rest, '=');
    SplitAround(key, value + "=" + rest, '=');
    assert key + "=" + value + "=" + rest == key + ['='] + (value + ['='] + rest);
  }

  /** The `&`-segments of a query; an absent query counts as "". */
  function Segments(query: Option<string>): (segments: seq<string>)
    ensures |segments| >= 1
  {
    Split(query.GetOr(""), '&')
  }

  /** The (key, value) pairs of the query, one per segment, in order. */
  function Pairs(query: Option<string>): (pairs: seq<(string, string)>)
    ensures |pairs| == |Segments(query)|
    ensures forall i :: 0 <= i < |pairs| ==> pairs[i] == Pair(Segments(query)[i])
  {
    var segments := Segments(query);
    seq(|segments|, i requires 0 <= i < |segments| => Pair(segments[i]))
  }

  /** The parsed query map (`HashMap<&str, &str>` built by `collect`). */
  function ParseQuery(query: Option<string>): map<string, string> {
    InsertAll(map[], Pairs(query))
  }

  /** `query.get(name).unwrap_or(&"")`. */
  function Param(parsed: map<string, string>, name: string): string {
    if name in parsed then parsed[name] else ""
  }

  /** A key is in the parsed map exactly when some segment has it as key. */
  lemma ParseQueryKeys(query: Option<string>, k: string)
    ensures k in ParseQuery(query) <==>
            exists i :: 0 <= i < |Segments(query)| && Pair(Segments(query)[i]).0 == k
  {
    var pairs := Pairs(query);
    InsertAllHas(map[], pairs, k);
    if exists i :: 0 <= i < |pairs| && pairs[i].0 == k {
      var i :| 0 <= i < |pairs| && pairs[i].0 == k;
      assert Pair(Segments(query)[i]).0 == k;
    }
  }

  /** A key that occurs more than once keeps the value of its last segment. */
  lemma ParseQueryLastWins(query: Option<string>, j: nat)
    requires j < |Segments(query)|
    requires forall i :: j < i < |Segments(query)| ==>
               Pair(Segments(query)[i]).0 != Pair(Segments(query)[j]).0
    ensures Pair(Segments(query)[j]).0 in ParseQuery(query)
    ensures ParseQuery(query)[Pair(Segments(query)[j]).0] == Pair(Segments(query)[j]).1
  {
    InsertAllLastWins(map[], Pairs(query), j);
  }

  /** A `key=value` segment built from `&`-free parts holds no `&`. */
  lemma SegmentHasNoAmpersand(key: string, value: string)
    requires '&' !in key && '&' !in value
    ensures '&' !in key + "=" + value
  {
  }

  /** A query made of one `key=value` segment parses to that one pair. */
  lemma SingleParameter(key: string, value: string)
    requires '&' !in key && '=' !in key && '&' !in value && '=' !in value
    ensures ParseQuery(Some(key + "=" + value)) == map[key := value]
  {
    var s := key + "=" + value;
    SegmentHasNoAmpersand(key, value);
    SplitNoSeparator(s, '&');
    PairOfSegment(key, value, "");
    assert Pairs(Some(s)) == [(key, value)];
    assert InsertAll(map[], [(key, value)]) == InsertAll(map[key := value], []);
  }

  /** Two `key=value` segments parse to their two pairs, the second winning
      when the keys are equal. */
  lemma TwoParameters(k1: string, v1: string, k2: string, v2: string)
    requires '&' !in k1 && '=' !in k1 && '&' !in v1 && '=' !in v1
    requires '&' !in k2 && '=' !in k2 && '&' !in v2 && '=' !in v2
    ensures ParseQuery(Some(k1 + "=" + v1 + "&" + k2 + "=" + v2)) == map[k1 := v1][k2 := v2]
  {
    var s1, s2 := k1 + "=" + v1, k2 + "=" + v2;
    var s := s1 + ['&'] + s2;
    assert k1 + "=" + v1 + "&" + k2 + "=" + v2 == s;
    SegmentHasNoAmpersand(k1, v1);
    SegmentHasNoAmpersand(k2, v2);
    SplitAround(s1, s2, '&');
    SplitNoSeparator(s1, '&');
    SplitNoSeparator(s2, '&');
    assert Segments(Some(s)) == [s1, s2];
    PairOfSegment(k1, v1, "");
    PairOfSegment(k2, v2, "");
    assert Pairs(Some(s)) == [(k1, v1), (k2, v2)];
    var pairs := [(k1, v1), (k2, v2)];
    assert pairs[1..] == [(k2, v2)];
    assert InsertAll(map[], pairs) == InsertAll(map[k1 := v1], [(k2, v2)]);
    assert InsertAll(map[k1 := v1], [(k2, v2)]) == InsertAll(map[k1 := v1][k2 := v2], []);
  }

  /** A missing query parses to the single pair ("", ""), so it has no
      `link` parameter. */
  lemma AbsentQuery()
    ensures ParseQuery(None) == map["" := ""]
    ensures Param(ParseQuery(None), "link") == ""
  {
  }

  /** A trailing `&` adds one more empty segment, which sets the key "" to
      "" and changes nothing else. */
  lemma TrailingAmpersand(s: string)
    ensures ParseQuery(Some(s + "&")) == ParseQuery(Some(s))["" := ""]
  {
    assert s + "&" == s + ['&'] + "";
    SplitAround(s, "", '&');
    assert Segments(Some(s + "&")) == Segments(Some(s)) + [""];
    assert Pairs(Some(s + "&")) == Pairs(Some(s)) + [("", "")];
    InsertAllAppend(map[], Pairs(Some(s)), [("", "")]);
  }
}
