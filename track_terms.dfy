/**
 * The keyword track list: Guava's Splitter.on(',').omitEmptyStrings().trimResults()
 * applied to the "keywords" setting (TwitterInput.launch and TwitterTransport.launch).
 * The raw string is cut at every comma, each piece is trimmed of whitespace, and the
 * pieces that are then empty are dropped; order and duplicates are kept.
 */
module TrackTerms {

  /** Guava's CharMatcher.whitespace(): the characters trimResults() strips. */
  predicate IsWhitespace(c: char)
  {
    || c == '\t' || c == '\n' || c == '\U{000B}' || c == '\U{000C}' || c == '\r' || c == ' '
    || c == '\U{0085}' || c == '\U{00A0}' || c == '\U{1680}'
    || ('\U{2000}' <= c <= '\U{200A}')
    || c == '\U{2028}' || c == '\U{2029}' || c == '\U{202F}' || c == '\U{205F}' || c == '\U{3000}'
  }

  predicate AllWhitespace(s: string)
  {
    forall i :: 0 <= i < |s| ==> IsWhitespace(s[i])
  }

  /** No character of s is c. */
  predicate Excludes(s: string, c: char)
  {
    forall k :: 0 <= k < |s| ==> s[k] != c
  }

  /** Neither end of s is whitespace. */
  predicate IsTrimmed(s: string)
  {
    s == [] || (!IsWhitespace(s[0]) && !IsWhitespace(s[|s| - 1]))
  }

  /** Drops leading whitespace. */
  function TrimStart(s: string): string
  {
    if |s| > 0 && IsWhitespace(s[0]) then TrimStart(s[1..]) else s
  }

  /** TrimStart keeps a suffix, drops only whitespace, and stops at the first other character. */
  lemma {:induction false} TrimStartFacts(s: string)
    ensures |TrimStart(s)| <= |s|
    ensures forall i :: 0 <= i < |TrimStart(s)| ==> TrimStart(s)[i] == s[|s| - |TrimStart(s)| + i]
    ensures forall i :: 0 <= i < |s| - |TrimStart(s)| ==> IsWhitespace(s[i])
    ensures TrimStart(s) == [] || !IsWhitespace(TrimStart(s)[0])
    decreases |s|
  {
    if |s| > 0 && IsWhitespace(s[0]) {
      TrimStartFacts(s[1..]);
      var r := TrimStart(s[1..]);
      assert forall i :: 0 <= i < |r| ==> r[i] == s[1..][|s| - 1 - |r| + i];
      assert forall i :: 1 <= i < |s| - |r| ==> s[i] == s[1..][i - 1];
    }
  }

  /** Drops trailing whitespace. */
  function TrimEnd(s: string): string
  {
    if |s| > 0 && IsWhitespace(s[|s| - 1]) then TrimEnd(s[..|s| - 1]) else s
  }

  /** TrimEnd keeps a prefix, drops only whitespace, and stops at the last other character. */
  lemma {:induction false} TrimEndFacts(s: string)
    ensures |TrimEnd(s)| <= |s|
    ensures forall i :: 0 <= i < |TrimEnd(s)| ==> TrimEnd(s)[i] == s[i]
    ensures forall i :: |TrimEnd(s)| <= i < |s| ==> IsWhitespace(s[i])
    ensures TrimEnd(s) == [] || !IsWhitespace(TrimEnd(s)[|TrimEnd(s)| - 1])
    decreases |s|
  {
    if |s| > 0 && IsWhitespace(s[|s| - 1]) {
      TrimEndFacts(s[..|s| - 1]);
    }
  }

  /** CharMatcher.whitespace().trimFrom(s): both ends stripped. */
  function Trim(s: string): (r: string)
    ensures IsTrimmed(r)
    ensures r == [] <==> AllWhitespace(s)
  {
    var t := TrimStart(s);
    var r := TrimEnd(t);
    TrimStartFacts(s);
    TrimEndFacts(t);
    assert t != [] ==> !IsWhitespace(t[0]) && t[0] == s[|s| - |t|];
    assert r != [] ==> r[0] == t[0];
    r
  }

  /** Trimming only removes characters: one that s lacks, its trimmed form lacks too. */
  lemma TrimExcludes(s: string, c: char)
    requires Excludes(s, c)
    ensures Excludes(Trim(s), c)
  {
    var t := TrimStart(s);
    var r := TrimEnd(t);
    TrimStartFacts(s);
    TrimEndFacts(t);
    forall k | 0 <= k < |r| ensures r[k] != c {
      assert r[k] == t[k];
      assert t[k] == s[|s| - |t| + k];
    }
  }

  /**
   * Trim is characterised independently of how it is computed: whatever
   * whitespace surrounds a trimmed core, Trim returns exactly that core.
   */
  lemma {:induction false} TrimUnique(lead: string, core: string, trail: string)
    requires AllWhitespace(lead) && AllWhitespace(trail) && IsTrimmed(core)
    ensures Trim(lead + core + trail) == core
  {
    var s := lead + core + trail;
    if core == [] {
      assert AllWhitespace(s);
    } else {
      TrimStartDrops(lead, core + trail);
      assert lead + (core + trail) == s;
      TrimEndDrops(core, trail);
    }
  }

  lemma {:induction false} TrimStartDrops(lead: string, rest: string)
    requires AllWhitespace(lead) && (rest == [] || !IsWhitespace(rest[0]))
    ensures TrimStart(lead + rest) == rest
    decreases |lead|
  {
    if lead != [] {
      assert (lead + rest)[1..] == lead[1..] + rest;
      TrimStartDrops(lead[1..], rest);
    } else {
      assert lead + rest == rest;
    }
  }

  lemma {:induction false} TrimEndDrops(rest: string, trail: string)
    requires AllWhitespace(trail) && (rest == [] || !IsWhitespace(rest[|rest| - 1]))
    ensures TrimEnd(rest + trail) == rest
    decreases |trail|
  {
    if trail != [] {
      var s := rest + trail;
      assert s[..|s| - 1] == rest + trail[..|trail| - 1];
      TrimEndDrops(rest, trail[..|trail| - 1]);
    } else {
      assert rest + trail == rest;
    }
  }

  /** A string with no surrounding whitespace is left as it is. */
  lemma TrimOfTrimmed(s: string)
    requires IsTrimmed(s)
    ensures Trim(s) == s
  {
    assert TrimStart(s) == s;
    assert TrimEnd(s) == s;
  }

  /** Trimming twice is trimming once. */
  lemma TrimIdempotent(s: string)
    ensures Trim(Trim(s)) == Trim(s)
  {
    TrimOfTrimmed(Trim(s));
  }

  /** Splitter.on(sep): the pieces between separators, empty ones included. */
  function Split(s: string, sep: char): (pieces: seq<string>)
    ensures |pieces| >= 1
    decreases |s|
  {
    if |s| == 0 then [""]
    else
      var rest := Split(s[1..], sep);
      if s[0] == sep then [""] + rest
      else [[s[0]] + rest[0]] + rest[1..]
  }

  /** The pieces glued back together with the separator between neighbours. */
  function Join(pieces: seq<string>, sep: char): string
  {
    if |pieces| == 0 then ""
    else if |pieces| == 1 then pieces[0]
    else pieces[0] + [sep] + Join(pieces[1..], sep)
  }

  /** No piece contains the separator, and joining the pieces gives back the input. */
  lemma {:induction false} SplitPieces(s: string, sep: char)
    ensures forall i :: 0 <= i < |Split(s, sep)| ==> Excludes(Split(s, sep)[i], sep)
    ensures Join(Split(s, sep), sep) == s
    decreases |s|
  {
    if |s| > 0 {
      var rest := Split(s[1..], sep);
      SplitPieces(s[1..], sep);
      var pieces := Split(s, sep);
      if s[0] == sep {
        assert pieces == [""] + rest;
        assert pieces[1..] == rest;
        assert [sep] + s[1..] == s;
      } else {
        var first := [s[0]] + rest[0];
        assert pieces == [first] + rest[1..];
        assert pieces[1..] == rest[1..];
        assert forall i :: 1 <= i < |pieces| ==> pieces[i] == rest[i];
        assert [s[0]] + s[1..] == s;
        if |rest| > 1 {
          assert Join(rest, sep) == rest[0] + [sep] + Join(rest[1..], sep);
          assert Join(pieces, sep) == first + [sep] + Join(rest[1..], sep);
        }
      }
    }
  }

  /** Splitting a concatenation at a separator splits the two halves separately. */
  lemma {:induction false} SplitConcat(a: string, sep: char, b: string)
    ensures Split(a + [sep] + b, sep) == Split(a, sep) + Split(b, sep)
    decreases |a|
  {
    if a == [] {
      assert a + [sep] + b == [sep] + b;
      SplitCons(sep, b, sep);
    } else {
      var tail := a[1..] + [sep] + b;
      assert a + [sep] + b == [a[0]] + tail;
      assert a == [a[0]] + a[1..];
      SplitCons(a[0], tail, sep);
      SplitCons(a[0], a[1..], sep);
      SplitConcat(a[1..], sep, b);
      if a[0] != sep {
        GlueHead([a[0]], Split(a[1..], sep), Split(b, sep));
      }
    }
  }

  /** One step of Split: the first character either ends the first piece or joins it. */
  lemma SplitCons(c: char, rest: string, sep: char)
    ensures Split([c] + rest, sep) ==
      if c == sep then [""] + Split(rest, sep)
      else [[c] + Split(rest, sep)[0]] + Split(rest, sep)[1..]
  {
    assert ([c] + rest)[1..] == rest;
  }

  lemma GlueHead(x: string, left: seq<string>, right: seq<string>)
    requires |left| >= 1
    ensures [x + (left + right)[0]] + (left + right)[1..] == [x + left[0]] + left[1..] + right
  {
    assert (left + right)[1..] == left[1..] + right;
  }

  /** The other direction of the round trip: Split undoes Join on separator-free pieces. */
  lemma {:induction false} SplitJoin(pieces: seq<string>, sep: char)
    requires |pieces| >= 1
    requires forall i :: 0 <= i < |pieces| ==> Excludes(pieces[i], sep)
    ensures Split(Join(pieces, sep), sep) == pieces
    decreases |pieces|
  {
    if |pieces| == 1 {
      SplitNoSeparator(pieces[0], sep);
    } else {
      SplitJoin(pieces[1..], sep);
      SplitConcat(pieces[0], sep, Join(pieces[1..], sep));
      SplitNoSeparator(pieces[0], sep);
      assert pieces == [pieces[0]] + pieces[1..];
    }
  }

  lemma {:induction false} SplitNoSeparator(s: string, sep: char)
    requires Excludes(s, sep)
    ensures Split(s, sep) == [s]
    decreases |s|
  {
    if s != [] {
      SplitNoSeparator(s[1..], sep);
      assert [s[0]] + s[1..] == s;
    }
  }

  /** trimResults() then omitEmptyStrings(), piece by piece, in order. */
  function TrimAndOmit(pieces: seq<string>): (terms: seq<string>)
    ensures |terms| <= |pieces|
  {
    if pieces == [] then []
    else
      var t := Trim(pieces[0]);
      (if t == "" then [] else [t]) + TrimAndOmit(pieces[1..])
  }

  /** Every term is non-empty and has no surrounding whitespace. */
  lemma {:induction false} TrimAndOmitTrimmed(pieces: seq<string>)
    ensures forall i :: 0 <= i < |TrimAndOmit(pieces)| ==>
      TrimAndOmit(pieces)[i] != "" && IsTrimmed(TrimAndOmit(pieces)[i])
    decreases |pieces|
  {
    if pieces != [] {
      var rest := TrimAndOmit(pieces[1..]);
      TrimAndOmitTrimmed(pieces[1..]);
      var t := Trim(pieces[0]);
      if t != "" {
        assert TrimAndOmit(pieces) == [t] + rest;
        assert forall i :: 1 <= i < |rest| + 1 ==> TrimAndOmit(pieces)[i] == rest[i - 1];
      } else {
        assert TrimAndOmit(pieces) == rest;
      }
    }
  }

  /** A character that occurs in no piece occurs in no term. */
  lemma {:induction false} TrimAndOmitExcludes(pieces: seq<string>, c: char)
    requires forall i :: 0 <= i < |pieces| ==> Excludes(pieces[i], c)
    ensures forall i :: 0 <= i < |TrimAndOmit(pieces)| ==> Excludes(TrimAndOmit(pieces)[i], c)
    decreases |pieces|
  {
    if pieces != [] {
      var tail := pieces[1..];
      var rest := TrimAndOmit(tail);
      forall i | 0 <= i < |tail| ensures Excludes(tail[i], c) {
        assert tail[i] == pieces[i + 1];
      }
      TrimAndOmitExcludes(tail, c);
      var t := Trim(pieces[0]);
      var terms := TrimAndOmit(pieces);
      if t != "" {
        TrimExcludes(pieces[0], c);
        assert terms == [t] + rest;
        forall i | 0 <= i < |terms| ensures Excludes(terms[i], c) {
          if i > 0 {
            assert terms[i] == rest[i - 1];
          }
        }
      } else {
        assert terms == rest;
      }
    }
  }

  lemma {:induction false} TrimAndOmitConcat(p: seq<string>, q: seq<string>)
    ensures TrimAndOmit(p + q) == TrimAndOmit(p) + TrimAndOmit(q)
    decreases |p|
  {
    if p != [] {
      assert (p + q)[1..] == p[1..] + q;
      TrimAndOmitConcat(p[1..], q);
    } else {
      assert p + q == q;
    }
  }

  /** The track terms derived from the "keywords" setting. */
  function Track(keywords: string): (terms: seq<string>)
    ensures |terms| <= |Split(keywords, ',')|
  {
    TrimAndOmit(Split(keywords, ','))
  }

  /** Every track term is non-empty, has no surrounding whitespace and no comma. */
  lemma TrackTermsWellFormed(keywords: string)
    ensures forall i :: 0 <= i < |Track(keywords)| ==>
      && Track(keywords)[i] != ""
      && IsTrimmed(Track(keywords)[i])
      && Excludes(Track(keywords)[i], ',')
  {
    SplitPieces(keywords, ',');
    TrimAndOmitTrimmed(Split(keywords, ','));
    TrimAndOmitExcludes(Split(keywords, ','), ',');
  }

  /**
   * Track terms keep their order and their duplicates: the terms of a comma-joined
   * string are the terms of the left part followed by those of the right part.
   */
  lemma TrackConcat(a: string, b: string)
    ensures Track(a + "," + b) == Track(a) + Track(b)
  {
    SplitConcat(a, ',', b);
    TrimAndOmitConcat(Split(a, ','), Split(b, ','));
  }

  /** A comma-free keyword string is one term, its trimmed self, or none if blank. */
  lemma TrackSingle(s: string)
    requires Excludes(s, ',')
    ensures Track(s) == if Trim(s) == "" then [] else [Trim(s)]
  {
    SplitNoSeparator(s, ',');
    assert TrimAndOmit([s]) == (if Trim(s) == "" then [] else [Trim(s)]) + TrimAndOmit([]);
  }

  /** A single keyword that needs no trimming is its own track list. */
  lemma TrackOfWord(w: string)
    requires w != "" && Excludes(w, ',') && IsTrimmed(w)
    ensures Track(w) == [w]
  {
    TrackSingle(w);
    TrimOfTrimmed(w);
  }

  /** Two plain keywords separated by a comma give exactly those two terms. */
  lemma TrackOfTwoWords(a: string, b: string)
    requires a != "" && Excludes(a, ',') && IsTrimmed(a)
    requires b != "" && Excludes(b, ',') && IsTrimmed(b)
    ensures Track(a + "," + b) == [a, b]
  {
    TrackConcat(a, b);
    TrackOfWord(a);
    TrackOfWord(b);
  }

  /** The keywords string used by the input's launch test. */
  lemma TrackOfTestKeywords()
    ensures Track("TEST_keywords1,TEST_keywords2") == ["TEST_keywords1", "TEST_keywords2"]
  {
    assert "TEST_keywords1" + "," + "TEST_keywords2" == "TEST_keywords1,TEST_keywords2";
    TrackOfTwoWords("TEST_keywords1", "TEST_keywords2");
  }

  /** Surrounding whitespace is trimmed from a keyword. */
  lemma TrackOfPaddedWord(lead: string, w: string, trail: string)
    requires AllWhitespace(lead) && AllWhitespace(trail)
    requires w != "" && IsTrimmed(w)
    requires Excludes(lead + w + trail, ',')
    ensures Track(lead + w + trail) == [w]
  {
    TrackSingle(lead + w + trail);
    TrimUnique(lead, w, trail);
  }

  /** A blank keyword contributes no term. */
  lemma TrackOfBlank(blank: string)
    requires AllWhitespace(blank) && Excludes(blank, ',')
    ensures Track(blank) == []
  {
    TrackSingle(blank);
  }

  /** A leading piece that trims to a word contributes that word first. */
  lemma TrackOfPaddedThen(lead: string, w: string, trail: string, rest: string)
    requires AllWhitespace(lead) && AllWhitespace(trail)
    requires w != "" && IsTrimmed(w)
    requires Excludes(lead + w + trail, ',')
    ensures Track(lead + w + trail + "," + rest) == [w] + Track(rest)
  {
    TrackConcat(lead + w + trail, rest);
    TrackOfPaddedWord(lead, w, trail);
  }

  /** A leading blank piece contributes nothing. */
  lemma TrackOfBlankThen(blank: string, rest: string)
    requires AllWhitespace(blank) && Excludes(blank, ',')
    ensures Track(blank + "," + rest) == Track(rest)
  {
    TrackConcat(blank, rest);
    TrackOfBlank(blank);
  }

  /**
   * A word, a padded word, a blank piece and a word, comma-separated: the three
   * words in order, the padding trimmed and the blank piece dropped.
   */
  lemma TrackOfMixedPieces(a: string, lead: string, b: string, trail: string, blank: string, c: string)
    requires a != "" && Excludes(a, ',') && IsTrimmed(a)
    requires AllWhitespace(lead) && AllWhitespace(trail) && b != "" && IsTrimmed(b)
    requires Excludes(lead + b + trail, ',')
    requires AllWhitespace(blank) && Excludes(blank, ',')
    requires c != "" && Excludes(c, ',') && IsTrimmed(c)
    ensures Track(a + "," + (lead + b + trail + "," + (blank + "," + c))) == [a, b, c]
  {
    var tail := blank + "," + c;
    var rest := lead + b + trail + "," + tail;
    TrackOfBlankThen(blank, c);
    TrackOfWord(c);
    TrackOfPaddedThen(lead, b, trail, tail);
    TrackConcat(a, rest);
    TrackOfWord(a);
  }

  /**
   * The splitter forgets padding and empty pieces: " foo," and "foo" give the same
   * track list.
   */
  lemma TrackOfPaddedTrailingComma()
    ensures Track(" foo,") == Track("foo") == ["foo"]
  {
    TrackOfWord("foo");
    TrackOfPaddedThen(" ", "foo", "", "");
    TrackOfBlank("");
    assert " foo," == " " + "foo" + "" + "," + "";
  }

  /** "foo, bar ,,baz": order kept, padding trimmed, the empty piece dropped. */
  lemma TrackOfSpacedKeywords()
    ensures Track("foo, bar ,,baz") == ["foo", "bar", "baz"]
  {
    assert "foo" + "," + (" " + "bar" + " " + "," + ("" + "," + "baz")) == "foo, bar ,,baz";
    TrackOfMixedPieces("foo", " ", "bar", " ", "", "baz");
  }
}
