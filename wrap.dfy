/** The greedy fixed-width line wrapper of the résumé PDF export: white space is
    collapsed, then characters are packed into pieces of at most `maxChars` UTF-16
    code units, a piece being closed once it has reached the width. */
module Wrap {
  import opened Strings
  import opened Ucs2

  /** `replace(/\s+/g, " ")`: every run of white space becomes a single space. */
  function CollapseRuns(s: string): (r: string)
    decreases |s|
  {
    if s == [] then []
    else if IsSpace(s[0]) then " " + CollapseRuns(TrimStart(s[1..]))
    else [s[0]] + CollapseRuns(s[1..])
  }

  /** The text the wrapper packs: runs of white space collapsed, then trimmed. */
  function Collapse(text: string): string {
    Trim(CollapseRuns(text))
  }

  /** The only white space is a single space between two other characters. */
  predicate Collapsed(t: string) {
    && Trimmed(t)
    && (forall i | 0 <= i < |t| :: IsSpace(t[i]) ==> t[i] == ' ')
    && (forall i | 0 <= i < |t| - 1 :: !(t[i] == ' ' && t[i + 1] == ' '))
  }

  /** The characters of `s` that are not white space, in order. */
  function Visible(s: string): string {
    if s == [] then [] else (if IsSpace(s[0]) then [] else [s[0]]) + Visible(s[1..])
  }

  predicate RunsCollapsed(t: string) {
    && (forall i | 0 <= i < |t| :: IsSpace(t[i]) ==> t[i] == ' ')
    && (forall i | 0 <= i < |t| - 1 :: !(t[i] == ' ' && t[i + 1] == ' '))
  }

  lemma {:induction false} CollapseRunsShape(s: string)
    ensures RunsCollapsed(CollapseRuns(s))
    ensures s != [] && !IsSpace(s[0]) ==> CollapseRuns(s) != [] && CollapseRuns(s)[0] == s[0]
    ensures s != [] && IsSpace(s[0]) ==> CollapseRuns(s) != [] && CollapseRuns(s)[0] == ' '
    ensures Visible(CollapseRuns(s)) == Visible(s)
    decreases |s|
  {
    if s != [] {
      if IsSpace(s[0]) {
        var t := TrimStart(s[1..]);
        CollapseRunsShape(t);
        VisibleOfSpaces(s[1..][..|s[1..]| - |t|], t);
        assert s[1..] == s[1..][..|s[1..]| - |t|] + t;
        var r := CollapseRuns(s);
        assert r == " " + CollapseRuns(t);
        assert t == [] || !IsSpace(t[0]);
        forall i | 0 <= i < |r| - 1 ensures !(r[i] == ' ' && r[i + 1] == ' ') {
          if i > 0 {
            assert r[i] == CollapseRuns(t)[i - 1];
          }
        }
      } else {
        CollapseRunsShape(s[1..]);
        var r := CollapseRuns(s);
        assert r == [s[0]] + CollapseRuns(s[1..]);
        forall i | 0 <= i < |r| - 1 ensures !(r[i] == ' ' && r[i + 1] == ' ') {
          if i > 0 {
            assert r[i] == CollapseRuns(s[1..])[i - 1];
          }
        }
      }
    }
  }

  lemma {:induction false} VisibleAppend(a: string, b: string)
    ensures Visible(a + b) == Visible(a) + Visible(b)
  {
    if a != [] {
      VisibleAppend(a[1..], b);
      assert (a + b)[1..] == a[1..] + b;
    } else {
      assert a + b == b;
    }
  }

  lemma {:induction false} VisibleOfSpaces(w: string, t: string)
    requires AllSpace(w)
    ensures Visible(w + t) == Visible(t)
  {
    VisibleAppend(w, t);
    VisibleAllSpace(w);
  }

  lemma {:induction false} VisibleAllSpace(w: string)
    requires AllSpace(w)
    ensures Visible(w) == []
  {
    if w != [] {
      assert AllSpace(w[1..]);
      VisibleAllSpace(w[1..]);
    }
  }

  /** Trimming keeps collapsed runs collapsed and drops no visible character. */
  lemma {:induction false} TrimRunsCollapsed(c: string)
    requires RunsCollapsed(c)
    ensures RunsCollapsed(Trim(c))
  {
    var t := Trim(c);
    var k := SkipSpaces(c, 0);
    TrimSlice(c);
    forall i | 0 <= i < |t| - 1 ensures !(t[i] == ' ' && t[i + 1] == ' ') {
      assert t[i] == c[k + i] && t[i + 1] == c[k + i + 1];
    }
    forall i | 0 <= i < |t| ensures IsSpace(t[i]) ==> t[i] == ' ' {
      assert t[i] == c[k + i];
    }
  }

  lemma {:induction false} TrimVisible(c: string)
    ensures Visible(Trim(c)) == Visible(c)
  {
    TrimSlice(c);
    var a := SkipSpaces(c, 0);
    var t := Trim(c);
    var w, w' := c[..a], c[a + |t|..];
    assert c == w + (t + w');
    VisibleOfSpaces(w, t + w');
    VisibleAppend(t, w');
    VisibleAllSpace(w');
  }

  /** Collapsing leaves single spaces only between words, and keeps every other
      character, in order. */
  lemma {:induction false} CollapseShape(text: string)
    ensures Collapsed(Collapse(text))
    ensures Visible(Collapse(text)) == Visible(text)
  {
    var c := CollapseRuns(text);
    CollapseRunsShape(text);
    TrimRunsCollapsed(c);
    TrimVisible(c);
  }

  lemma {:induction false} CollapseOfCollapsed(t: string)
    requires Collapsed(t)
    ensures Collapse(t) == t
  {
    CollapseRunsOfCollapsed(t);
    TrimOfTrimmed(t);
  }

  lemma {:induction false} CollapseRunsOfCollapsed(t: string)
    requires RunsCollapsed(t)
    requires t == [] || t[0] != ' ' || |t| == 1 || t[1] != ' '
    ensures CollapseRuns(t) == t
    decreases |t|
  {
    if t != [] {
      var r := t[1..];
      assert RunsCollapsed(r) by {
        forall i | 0 <= i < |r| - 1 ensures !(r[i] == ' ' && r[i + 1] == ' ') {
          assert r[i] == t[i + 1] && r[i + 1] == t[i + 2];
        }
      }
      if IsSpace(t[0]) {
        assert r == [] || !IsSpace(r[0]);
        assert TrimStart(r) == r;
      }
      CollapseRunsOfCollapsed(r);
      assert t == [t[0]] + r;
    }
  }

  lemma {:induction false} CollapseIdempotent(text: string)
    ensures Collapse(Collapse(text)) == Collapse(text)
  {
    CollapseShape(text);
    CollapseOfCollapsed(Collapse(text));
  }

  /** A text that starts with a visible character does not collapse to nothing. */
  lemma {:induction false} CollapseNonEmpty(text: string)
    requires text != [] && !IsSpace(text[0])
    ensures Collapse(text) != []
  {
    CollapseRunsShape(text);
    var c := CollapseRuns(text);
    assert !AllSpace(c);
    TrimEmptyIff(c);
  }

  /** The pieces the loop produces from `rest`, given the piece `cur` it is filling. */
  function Pieces(rest: string, cur: string, maxChars: int): seq<string>
    decreases |rest|
  {
    if rest == [] then (if cur != [] then [cur] else [])
    else if UnitLength(cur) >= maxChars then [cur] + Pieces(rest[1..], [rest[0]], maxChars)
    else Pieces(rest[1..], cur + [rest[0]], maxChars)
  }

  /** What `wrapText(text, maxChars)` returns. */
  function WrapPieces(text: string, maxChars: int): seq<string> {
    var t := Collapse(text);
    if t == [] then [] else Pieces(t, [], maxChars)
  }

  function Concat(pieces: seq<string>): string {
    if pieces == [] then [] else pieces[0] + Concat(pieces[1..])
  }

  lemma {:induction false} PiecesConcat(rest: string, cur: string, maxChars: int)
    ensures Concat(Pieces(rest, cur, maxChars)) == cur + rest
    decreases |rest|
  {
    if rest != [] {
      if UnitLength(cur) >= maxChars {
        PiecesConcat(rest[1..], [rest[0]], maxChars);
      } else {
        PiecesConcat(rest[1..], cur + [rest[0]], maxChars);
      }
      assert rest == [rest[0]] + rest[1..];
    }
  }

  lemma {:induction false} PiecesNonEmpty(rest: string, cur: string, maxChars: int)
    requires maxChars >= 1
    ensures forall k | 0 <= k < |Pieces(rest, cur, maxChars)| :: Pieces(rest, cur, maxChars)[k] != []
    decreases |rest|
  {
    if rest != [] {
      if UnitLength(cur) >= maxChars {
        PiecesNonEmpty(rest[1..], [rest[0]], maxChars);
      } else {
        PiecesNonEmpty(rest[1..], cur + [rest[0]], maxChars);
      }
    }
  }

  lemma {:induction false} PiecesEndWithCur(rest: string, cur: string, maxChars: int)
    requires rest != [] || cur != []
    ensures Pieces(rest, cur, maxChars) != []
    decreases |rest|
  {
    if rest != [] {
      if UnitLength(cur) >= maxChars {
        PiecesEndWithCur(rest[1..], [rest[0]], maxChars);
      } else {
        PiecesEndWithCur(rest[1..], cur + [rest[0]], maxChars);
      }
    }
  }

  /** Every closed piece has reached the width and holds at most one code unit more
      (a surrogate pair may straddle it); the last piece is at most that long too. */
  lemma {:induction false} PiecesUnits(rest: string, cur: string, maxChars: int)
    requires maxChars >= 1 && UnitLength(cur) <= maxChars + 1
    ensures var p := Pieces(rest, cur, maxChars);
      && (forall k | 0 <= k < |p| - 1 :: maxChars <= UnitLength(p[k]) <= maxChars + 1)
      && (forall k | 0 <= k < |p| :: UnitLength(p[k]) <= maxChars + 1)
    decreases |rest|
  {
    if rest != [] {
      var c := rest[0];
      UnitLengthAppend([], c);
      if UnitLength(cur) >= maxChars {
        PiecesUnits(rest[1..], [c], maxChars);
        PiecesEndWithCur(rest[1..], [c], maxChars);
      } else {
        UnitLengthAppend(cur, c);
        PiecesUnits(rest[1..], cur + [c], maxChars);
        assert Pieces(rest, cur, maxChars) == Pieces(rest[1..], cur + [c], maxChars);
      }
    }
  }

  /** For text within the BMP every piece but the last has exactly `maxChars`
      characters, and the last has at most that many. */
  lemma {:induction false} PiecesBmp(rest: string, cur: string, maxChars: int)
    requires maxChars >= 1 && |cur| <= maxChars
    requires AllBmp(cur) && AllBmp(rest)
    ensures var p := Pieces(rest, cur, maxChars);
      && (forall k | 0 <= k < |p| - 1 :: |p[k]| == maxChars)
      && (forall k | 0 <= k < |p| :: |p[k]| <= maxChars)
    decreases |rest|
  {
    UnitLengthBmp(cur);
    if rest != [] {
      var c := rest[0];
      assert AllBmp(rest[1..]);
      if UnitLength(cur) >= maxChars {
        PiecesBmp(rest[1..], [c], maxChars);
        PiecesEndWithCur(rest[1..], [c], maxChars);
      } else {
        assert AllBmp(cur + [c]);
        PiecesBmp(rest[1..], cur + [c], maxChars);
        assert Pieces(rest, cur, maxChars) == Pieces(rest[1..], cur + [c], maxChars);
      }
    }
  }

  /** The wrapper's promises: nothing for a blank text; otherwise non-empty pieces
      that concatenate to exactly the collapsed text, each of the full width but
      the last. */
  lemma {:induction false} WrapPiecesProperties(text: string, maxChars: int)
    ensures var p := WrapPieces(text, maxChars);
      && (p == [] <==> Collapse(text) == [])
      && Concat(p) == Collapse(text)
    ensures maxChars >= 1 ==> var p := WrapPieces(text, maxChars);
      && (forall k | 0 <= k < |p| :: p[k] != [] && UnitLength(p[k]) <= maxChars + 1)
      && (forall k | 0 <= k < |p| - 1 :: maxChars <= UnitLength(p[k]))
    ensures maxChars >= 1 && AllBmp(text) ==> var p := WrapPieces(text, maxChars);
      && (forall k | 0 <= k < |p| - 1 :: |p[k]| == maxChars)
      && (forall k | 0 <= k < |p| :: |p[k]| <= maxChars)
  {
    var t := Collapse(text);
    if t != [] {
      PiecesConcat(t, [], maxChars);
      PiecesEndWithCur(t, [], maxChars);
      if maxChars >= 1 {
        PiecesNonEmpty(t, [], maxChars);
        PiecesUnits(t, [], maxChars);
        if AllBmp(text) {
          CollapseKeepsBmp(text);
          PiecesBmp(t, [], maxChars);
        }
      }
    }
  }

  lemma {:induction false} CollapseKeepsBmp(text: string)
    requires AllBmp(text)
    ensures AllBmp(Collapse(text))
  {
    CollapseRunsBmp(text);
  }

  lemma {:induction false} CollapseRunsBmp(s: string)
    requires AllBmp(s)
    ensures AllBmp(CollapseRuns(s))
    decreases |s|
  {
    if s != [] {
      if IsSpace(s[0]) {
        var t := TrimStart(s[1..]);
        assert AllBmp(t) by {
          forall i | 0 <= i < |t| ensures InBmp(t[i]) {
            assert t[i] == s[1..][|s[1..]| - |t| + i];
          }
        }
        CollapseRunsBmp(t);
      } else {
        assert AllBmp(s[1..]);
        CollapseRunsBmp(s[1..]);
      }
    }
  }

  /** `wrapText`: the loop over the characters of the collapsed text that grows the
      piece `cur` and closes it once it has reached `maxChars` code units. */
  method WrapText(text: string, maxChars: int) returns (lines: seq<string>)
    ensures lines == WrapPieces(text, maxChars)
  {
    var t := Collapse(text);
    if t == [] {
      return [];
    }
    lines := [];
    var cur := "";
    for i := 0 to |t|
      invariant lines + Pieces(t[i..], cur, maxChars) == Pieces(t, "", maxChars)
    {
      var ch := t[i];
      assert t[i..][1..] == t[i + 1..];
      if UnitLength(cur) >= maxChars {
        lines := lines + [cur];
        cur := [ch];
        continue;
      }
      cur := cur + [ch];
    }
    if cur != [] {
      lines := lines + [cur];
    }
  }
}
