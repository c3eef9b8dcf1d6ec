/**
  The normalisation and tokenisation that the test driver applies to the
  agent's advice text before looking for the expected tokens, in this order:
  commas become spaces (ReplaceCommas), each ". " becomes a single space
  (SubDotSpace), one final '.' is dropped (StripFinalDot), every '!' is
  deleted (DeleteBangs), and the result is cut at every single space
  (Split), so adjacent spaces give empty tokens.

  Every step is a pure function on strings; the lemmas state what each step
  does independently of how it is computed, and what the composition
  guarantees about the whole tokens that survive.
*/
module TextNormalize {

  /** Substituting a space for every comma: nothing else moves. */
  function ReplaceCommas(s: string): (r: string)
    ensures |r| == |s|
    ensures ',' !in r
  {
    if s == [] then [] else [if s[0] == ',' then ' ' else s[0]] + ReplaceCommas(s[1..])
  }

  /**
    Substituting a space for every non-overlapping ". ": scan left to
    right; where ". " starts, emit one space and resume after the match,
    otherwise copy one character.
  */
  function SubDotSpace(s: string): (r: string)
    ensures |r| <= |s|
  {
    if |s| >= 2 && s[0] == '.' && s[1] == ' ' then [' '] + SubDotSpace(s[2..])
    else if s == [] then []
    else [s[0]] + SubDotSpace(s[1..])
  }

  /** Reference definition: delete exactly the dots that stand immediately before a space. */
  function DropDotsBeforeSpace(s: string): string
  {
    if s == [] then []
    else (if s[0] == '.' && |s| > 1 && s[1] == ' ' then [] else [s[0]]) + DropDotsBeforeSpace(s[1..])
  }

  /** Deleting a '.' anchored at the end of the text: one '.' at the very end of the string is dropped. */
  function StripFinalDot(s: string): (r: string)
    ensures r == s || r + "." == s
    ensures r == s <==> (s == [] || s[|s| - 1] != '.')
  {
    if s != [] && s[|s| - 1] == '.' then s[..|s| - 1] else s
  }

  /** Deleting every '!': every other character is kept, in order. */
  function DeleteBangs(s: string): (r: string)
    ensures '!' !in r
  {
    if s == [] then [] else (if s[0] == '!' then [] else [s[0]]) + DeleteBangs(s[1..])
  }

  /** The four substitutions, in the order the driver applies them. */
  function Normalize(s: string): (r: string)
    ensures ',' !in r && '!' !in r
  {
    var a := SubDotSpace(ReplaceCommas(s));
    SubDotSpaceKeeps(ReplaceCommas(s), ',');
    var b := StripFinalDot(a);
    DeleteBangsKeeps(b, ',');
    DeleteBangs(b)
  }

  /** Python's split on a single-space separator: adjacent, leading or trailing spaces give empty tokens. */
  function Split(s: string): (r: seq<string>)
    ensures |r| >= 1
  {
    if s == [] then [[]]
    else if s[0] == ' ' then [[]] + Split(s[1..])
    else
      var t := Split(s[1..]);
      [[s[0]] + t[0]] + t[1..]
  }

  /** ' '.join(ts). */
  function Join(ts: seq<string>): string
    requires |ts| >= 1
  {
    if |ts| == 1 then ts[0] else ts[0] + " " + Join(ts[1..])
  }

  /** The tokens the driver searches. */
  function Tokens(advice: string): seq<string>
  {
    Split(Normalize(advice))
  }

  /**
    `w` occurs in `s` as a whole space-delimited word: it contains no space
    and some occurrence of it is bounded on each side by a space or by an
    end of `s`.
  */
  ghost predicate IsWholeWord(s: string, w: string)
  {
    ' ' !in w && exists i :: WordAt(s, w, i)
  }

  /** `w` occurs in `s` at index `i`, with a space or an end of `s` on each side. */
  predicate WordAt(s: string, w: string, i: int)
  {
    && 0 <= i <= |s| - |w| && s[i..i + |w|] == w
    && (i == 0 || s[i - 1] == ' ')
    && (i + |w| == |s| || s[i + |w|] == ' ')
  }

  // ---------------------------------------------------------------------
  // What each step keeps

  /** Each character of the result is the character at the same place, with a comma turned into a space. */
  lemma {:induction false} ReplaceCommasPointwise(s: string)
    ensures forall i :: 0 <= i < |s| ==> ReplaceCommas(s)[i] == (if s[i] == ',' then ' ' else s[i])
  {
    if s != [] {
      ReplaceCommasPointwise(s[1..]);
    }
  }

  /** The dot-space substitution introduces no character that is not a space. */
  lemma {:induction false} SubDotSpaceKeeps(s: string, c: char)
    requires c != ' ' && c !in s
    ensures c !in SubDotSpace(s)
  {
    if |s| >= 2 && s[0] == '.' && s[1] == ' ' {
      SubDotSpaceKeeps(s[2..], c);
    } else if s != [] {
      assert c !in s[1..];
      SubDotSpaceKeeps(s[1..], c);
    }
  }

  /** Deleting the '!'s introduces no character. */
  lemma {:induction false} DeleteBangsKeeps(s: string, c: char)
    requires c !in s
    ensures c !in DeleteBangs(s)
  {
    if s != [] {
      assert c !in s[1..];
      DeleteBangsKeeps(s[1..], c);
    }
  }

  /** No token contains a space. */
  lemma {:induction false} SplitTokensHaveNoSpace(s: string)
    ensures forall t :: t in Split(s) ==> ' ' !in t
  {
    if s == [] {
    } else if s[0] == ' ' {
      SplitTokensHaveNoSpace(s[1..]);
    } else {
      var t := Split(s[1..]);
      SplitTokensHaveNoSpace(s[1..]);
      assert t[0] in t;
      forall u | u in Split(s) ensures ' ' !in u {
        if u != [s[0]] + t[0] {
          assert u in t[1..];
        }
      }
    }
  }

  // ---------------------------------------------------------------------
  // The dot-space substitution

  /** Replacing ". " by " " is the same as deleting every dot that precedes a space. */
  lemma {:induction false} SubDotSpaceDropsDots(s: string)
    ensures SubDotSpace(s) == DropDotsBeforeSpace(s)
  {
    if |s| >= 2 && s[0] == '.' && s[1] == ' ' {
      SubDotSpaceDropsDots(s[2..]);
      assert s[1..][1..] == s[2..];
      assert DropDotsBeforeSpace(s[1..]) == [' '] + DropDotsBeforeSpace(s[2..]);
    } else if s != [] {
      SubDotSpaceDropsDots(s[1..]);
    }
  }

  /** Unfolds one step of DropDotsBeforeSpace. */
  lemma {:induction false} DropDotsStep(s: string)
    requires s != []
    ensures DropDotsBeforeSpace(s)
         == (if s[0] == '.' && |s| > 1 && s[1] == ' ' then [] else [s[0]]) + DropDotsBeforeSpace(s[1..])
  {
  }

  /** The reference deletion distributes over a + b when the join does not form a ". ". */
  lemma {:induction false} DropDotsConcat(a: string, b: string)
    requires a == [] || b == [] || a[|a| - 1] != '.' || b[0] != ' '
    ensures DropDotsBeforeSpace(a + b) == DropDotsBeforeSpace(a) + DropDotsBeforeSpace(b)
  {
    if a == [] {
      assert a + b == b;
    } else {
      var ab := a + b;
      var h := if a[0] == '.' && |a| > 1 && a[1] == ' ' then [] else [a[0]];
      calc {
        DropDotsBeforeSpace(ab);
      == { DropDotsStep(ab); HeadOfConcat(a, b, h); }
        h + DropDotsBeforeSpace(ab[1..]);
      == { assert ab[1..] == a[1..] + b; }
        h + DropDotsBeforeSpace(a[1..] + b);
      == { DropDotsConcat(a[1..], b); }
        h + (DropDotsBeforeSpace(a[1..]) + DropDotsBeforeSpace(b));
      ==
        (h + DropDotsBeforeSpace(a[1..])) + DropDotsBeforeSpace(b);
      == { DropDotsStep(a); }
        DropDotsBeforeSpace(a) + DropDotsBeforeSpace(b);
      }
    }
  }

  /** Under DropDotsConcat's condition, the first character of a + b is kept or dropped as in a. */
  lemma {:induction false} HeadOfConcat(a: string, b: string, h: string)
    requires a != []
    requires b == [] || a[|a| - 1] != '.' || b[0] != ' '
    requires h == if a[0] == '.' && |a| > 1 && a[1] == ' ' then [] else [a[0]]
    ensures var ab := a + b; h == if ab[0] == '.' && |ab| > 1 && ab[1] == ' ' then [] else [ab[0]]
  {
    var ab := a + b;
    assert ab[0] == a[0];
    if |a| > 1 {
      assert ab[1] == a[1];
    } else if b != [] {
      assert ab[1] == b[0];
    }
  }

  /** Without a space there is no ". ", so the reference deletion changes nothing. */
  lemma {:induction false} DropDotsNoSpace(s: string)
    requires ' ' !in s
    ensures DropDotsBeforeSpace(s) == s
  {
    if s != [] {
      assert s[1..] == [] || s[1] in s;
      DropDotsNoSpace(s[1..]);
    }
  }

  /** The last character survives the reference deletion, since it stands before no space. */
  lemma {:induction false} DropDotsLast(s: string)
    requires s != []
    ensures var d := DropDotsBeforeSpace(s); d != [] && d[|d| - 1] == s[|s| - 1]
  {
    var rest := DropDotsBeforeSpace(s[1..]);
    var head := if s[0] == '.' && |s| > 1 && s[1] == ' ' then [] else [s[0]];
    assert DropDotsBeforeSpace(s) == head + rest;
    if |s| == 1 {
      assert s[1..] == [];
    } else {
      DropDotsLast(s[1..]);
      assert s[1..][|s| - 2] == s[|s| - 1];
    }
  }

  // ---------------------------------------------------------------------
  // The other substitutions over concatenations

  /** Replacing commas distributes over concatenation. */
  lemma {:induction false} ReplaceCommasConcat(a: string, b: string)
    ensures ReplaceCommas(a + b) == ReplaceCommas(a) + ReplaceCommas(b)
  {
    ReplaceCommasPointwise(a);
    ReplaceCommasPointwise(b);
    ReplaceCommasPointwise(a + b);
  }

  /** Unfolds one step of DeleteBangs. */
  lemma {:induction false} DeleteBangsStep(s: string)
    requires s != []
    ensures DeleteBangs(s) == (if s[0] == '!' then [] else [s[0]]) + DeleteBangs(s[1..])
  {
  }

  /** Deleting the '!'s distributes over concatenation. */
  lemma {:induction false} DeleteBangsConcat(a: string, b: string)
    ensures DeleteBangs(a + b) == DeleteBangs(a) + DeleteBangs(b)
  {
    if a == [] {
      assert a + b == b;
    } else {
      var ab := a + b;
      var h := if a[0] == '!' then [] else [a[0]];
      calc {
        DeleteBangs(ab);
      == { DeleteBangsStep(ab); assert ab[0] == a[0]; }
        h + DeleteBangs(ab[1..]);
      == { assert ab[1..] == a[1..] + b; }
        h + DeleteBangs(a[1..] + b);
      == { DeleteBangsConcat(a[1..], b); }
        h + (DeleteBangs(a[1..]) + DeleteBangs(b));
      ==
        (h + DeleteBangs(a[1..])) + DeleteBangs(b);
      == { DeleteBangsStep(a); }
        DeleteBangs(a) + DeleteBangs(b);
      }
    }
  }

  /** Text without '!' is unchanged by the deletion. */
  lemma {:induction false} DeleteBangsNoBang(s: string)
    requires '!' !in s
    ensures DeleteBangs(s) == s
  {
    if s != [] {
      assert s[1..] == [] || s[1] in s;
      DeleteBangsNoBang(s[1..]);
    }
  }

  /** Deleting the '!'s keeps every other character, as often as it occurred. */
  lemma {:induction false} DeleteBangsMultiset(s: string)
    ensures multiset(DeleteBangs(s)) == multiset(s)['!' := 0]
  {
    if s != [] {
      DeleteBangsMultiset(s[1..]);
      assert s == [s[0]] + s[1..];
    }
  }

  /** Stripping a final dot only touches the last part of a non-empty concatenation. */
  lemma {:induction false} StripFinalDotConcat(x: string, y: string)
    requires y != [] || (x != [] && x[|x| - 1] != '.')
    ensures StripFinalDot(x + y) == x + StripFinalDot(y)
  {
    if y == [] {
      assert x + y == x;
    } else {
      assert (x + y)[..|x + y| - 1] == x + y[..|y| - 1];
    }
  }

  // ---------------------------------------------------------------------
  // Split and Join

  /** Splitting at a space splits the two sides independently. */
  lemma {:induction false} SplitConcat(a: string, b: string)
    ensures Split(a + " " + b) == Split(a) + Split(b)
  {
    if a == [] {
      assert a + " " + b == " " + b;
      assert (" " + b)[1..] == b;
    } else {
      assert (a + " " + b)[1..] == a[1..] + " " + b;
      SplitConcat(a[1..], b);
    }
  }

  /** Space-free text is a single token. */
  lemma {:induction false} SplitNoSpace(w: string)
    requires ' ' !in w
    ensures Split(w) == [w]
  {
    if w != [] {
      assert w[1..] == [] || w[1] in w;
      SplitNoSpace(w[1..]);
      assert [w[0]] + w[1..] == w;
    }
  }

  /** An empty first token contributes only its separating space. */
  lemma {:induction false} JoinEmptyHead(ts: seq<string>)
    requires |ts| >= 1
    ensures Join([[]] + ts) == " " + Join(ts)
  {
    assert ([[]] + ts)[1..] == ts;
  }

  /** Unfolds one step of Join on two or more tokens. */
  lemma {:induction false} JoinTail(ts: seq<string>)
    requires |ts| > 1
    ensures Join(ts) == ts[0] + " " + Join(ts[1..])
  {
  }

  /** Prefixing the first token with a character prefixes the join with it. */
  lemma {:induction false} JoinCons(c: char, ts: seq<string>)
    requires |ts| >= 1
    ensures Join([[c] + ts[0]] + ts[1..]) == [c] + Join(ts)
  {
    var r := [[c] + ts[0]] + ts[1..];
    if |ts| == 1 {
      assert r == [[c] + ts[0]];
    } else {
      assert r[0] == [c] + ts[0] && r[1..] == ts[1..];
      JoinTail(r);
      JoinTail(ts);
      var rest := Join(ts[1..]);
      assert ([c] + ts[0]) + " " + rest == [c] + (ts[0] + " " + rest);
    }
  }

  /** Joining the tokens with single spaces gives the text back. */
  lemma {:induction false} JoinSplit(s: string)
    ensures Join(Split(s)) == s
  {
    if s == [] {
    } else if s[0] == ' ' {
      JoinSplit(s[1..]);
      JoinEmptyHead(Split(s[1..]));
      assert s == " " + s[1..];
    } else {
      var t := Split(s[1..]);
      JoinSplit(s[1..]);
      assert Split(s) == [[s[0]] + t[0]] + t[1..];
      JoinCons(s[0], t);
      assert s == [s[0]] + s[1..];
    }
  }

  /** Splitting a join of space-free tokens gives the tokens back. */
  lemma {:induction false} SplitJoin(ts: seq<string>)
    requires |ts| >= 1
    requires forall k :: 0 <= k < |ts| ==> ' ' !in ts[k]
    ensures Split(Join(ts)) == ts
  {
    SplitNoSpace(ts[0]);
    if |ts| > 1 {
      SplitJoin(ts[1..]);
      SplitConcat(ts[0], Join(ts[1..]));
      assert [ts[0]] + ts[1..] == ts;
    }
  }

  /** There is one token more than there are spaces. */
  lemma {:induction false} SplitCount(s: string)
    ensures |Split(s)| == multiset(s)[' '] + 1
  {
    if s != [] {
      SplitCount(s[1..]);
      assert s == [s[0]] + s[1..];
    }
  }

  /** An index shift between a slice of s and the same slice of s[1..]. */
  lemma {:induction false} SliceShift(s: string, j: nat, n: nat)
    requires 1 + j + n <= |s|
    ensures s[j + 1..j + 1 + n] == s[1..][j..j + n]
  {
  }

  /** Where token k sits in the text, with its delimiting spaces. */
  lemma {:induction false} TokenAt(s: string, k: nat) returns (i: nat)
    requires k < |Split(s)|
    ensures i + |Split(s)[k]| <= |s| && s[i..i + |Split(s)[k]|] == Split(s)[k]
    ensures k == 0 ==> i == 0
    ensures k > 0 ==> i > 0 && s[i - 1] == ' '
    ensures i + |Split(s)[k]| == |s| || s[i + |Split(s)[k]|] == ' '
  {
    if s == [] {
      i := 0;
    } else if s[0] == ' ' {
      if k == 0 {
        i := 0;
      } else {
        var tk := Split(s)[k];
        assert tk == Split(s[1..])[k - 1];
        var j := TokenAt(s[1..], k - 1);
        i := j + 1;
        SliceShift(s, j, |tk|);
      }
    } else {
      var t := Split(s[1..]);
      assert Split(s) == [[s[0]] + t[0]] + t[1..];
      if k == 0 {
        var j := TokenAt(s[1..], 0);
        i := 0;
        assert s[..1 + |t[0]|] == [s[0]] + s[1..][..|t[0]|];
      } else {
        var tk := Split(s)[k];
        assert tk == t[k];
        var j := TokenAt(s[1..], k);
        i := j + 1;
        SliceShift(s, j, |tk|);
      }
    }
  }

  /** Every token of the split is a whole word of the text. */
  lemma {:induction false} TokenIsWholeWord(s: string, w: string)
    requires w in Split(s)
    ensures IsWholeWord(s, w)
  {
    var k :| 0 <= k < |Split(s)| && Split(s)[k] == w;
    SplitTokensHaveNoSpace(s);
    var i := TokenAt(s, k);
    assert WordAt(s, w, i);
  }

  /** Every whole word of the text is a token of the split. */
  lemma {:induction false} WholeWordIsSplitToken(s: string, w: string)
    requires IsWholeWord(s, w)
    ensures w in Split(s)
  {
    var i :| WordAt(s, w, i);
    assert s == s[..i] + w + s[i + |w|..];
    WholeWordIsToken(s[..i], w, s[i + |w|..]);
  }

  /** A word is one of the tokens exactly when it occurs in the text as a whole word. */
  lemma {:induction false} TokenIff(s: string, w: string)
    ensures w in Split(s) <==> IsWholeWord(s, w)
  {
    if w in Split(s) {
      TokenIsWholeWord(s, w);
    }
    if IsWholeWord(s, w) {
      WholeWordIsSplitToken(s, w);
    }
  }

  /** A space-free word followed by a space or nothing is the first token. */
  lemma {:induction false} FirstTokenIs(w: string, b: string)
    requires ' ' !in w
    requires b == [] || b[0] == ' '
    ensures Split(w + b)[0] == w
  {
    SplitNoSpace(w);
    if b != [] {
      assert w + b == w + " " + b[1..];
      SplitConcat(w, b[1..]);
    } else {
      assert w + b == w;
    }
  }

  /** The first token after a space follows the tokens before it. */
  lemma {:induction false} TokenAfterSpace(a: string, x: string)
    ensures |Split(a)| < |Split(a + " " + x)|
    ensures Split(a + " " + x)[|Split(a)|] == Split(x)[0]
  {
    SplitConcat(a, x);
  }

  /** A space-free word between a space (or an end) on each side is a token of the text. */
  lemma {:induction false} WholeWordIsToken(a: string, w: string, b: string)
    requires ' ' !in w
    requires a == [] || a[|a| - 1] == ' '
    requires b == [] || b[0] == ' '
    ensures w in Split(a + w + b)
  {
    FirstTokenIs(w, b);
    if a != [] {
      var a' := a[..|a| - 1];
      assert a + w + b == a' + " " + (w + b);
      TokenAfterSpace(a', w + b);
    } else {
      assert a + w + b == w + b;
    }
  }

  // ---------------------------------------------------------------------
  // Which words survive normalisation

  /** A word the normaliser leaves untouched: no space, comma or '!', and not ending in '.'. */
  predicate PlainWord(w: string)
  {
    w != [] && ' ' !in w && ',' !in w && '!' !in w && w[|w| - 1] != '.'
  }

  /** Text that may stand before a word: empty, or ending in a space or comma, possibly followed by '!'s. */
  predicate LeftBoundary(pre: string)
  {
    || pre == []
    || pre[|pre| - 1] == ' '
    || pre[|pre| - 1] == ','
    || (pre[|pre| - 1] == '!' && LeftBoundary(pre[..|pre| - 1]))
  }

  /**
    Text that may stand after a word: empty, a lone final '.', or starting
    with a space, a comma or ". ", possibly preceded by '!'s.
  */
  predicate RightBoundary(post: string)
  {
    || post == []
    || post == "."
    || post[0] == ' '
    || post[0] == ','
    || (|post| >= 2 && post[0] == '.' && post[1] == ' ')
    || (post[0] == '!' && RightBoundary(post[1..]))
  }

  /** After the comma substitution a left boundary ends in a space or a '!', or is empty. */
  lemma {:induction false} LeftBoundaryCommas(pre: string)
    requires LeftBoundary(pre)
    ensures var a := ReplaceCommas(pre); a == [] || a[|a| - 1] == ' ' || a[|a| - 1] == '!'
  {
    ReplaceCommasPointwise(pre);
  }

  /** What the normaliser makes of text ending in a space or a comma: text ending in a space. */
  lemma {:induction false} EndsInSpaceNormalized(pre: string)
    requires pre != [] && (pre[|pre| - 1] == ' ' || pre[|pre| - 1] == ',')
    ensures var l := DeleteBangs(DropDotsBeforeSpace(ReplaceCommas(pre))); l != [] && l[|l| - 1] == ' '
  {
    var a := ReplaceCommas(pre);
    assert a[|a| - 1] == ' ' by {
      ReplaceCommasPointwise(pre);
    }
    DropDotsLast(a);
    var d := DropDotsBeforeSpace(a);
    var d' := d[..|d| - 1];
    calc {
      DeleteBangs(d);
    == { assert d == d' + " "; }
      DeleteBangs(d' + " ");
    == { DeleteBangsConcat(d', " "); }
      DeleteBangs(d') + DeleteBangs(" ");
    == { DeleteBangsStep(" "); }
      DeleteBangs(d') + " ";
    }
  }

  /** A trailing '!' leaves no trace on the left of a word. */
  lemma {:induction false} TrailingBangNormalized(p: string)
    ensures DeleteBangs(DropDotsBeforeSpace(ReplaceCommas(p + "!")))
         == DeleteBangs(DropDotsBeforeSpace(ReplaceCommas(p)))
  {
    var ap := ReplaceCommas(p);
    ReplaceCommasConcat(p, "!");
    assert ReplaceCommas("!") == "!";
    DropDotsConcat(ap, "!");
    assert DropDotsBeforeSpace("!") == "!";
    var dp := DropDotsBeforeSpace(ap);
    DeleteBangsConcat(dp, "!");
    assert DeleteBangs("!") == [];
  }

  /** A left boundary normalises to nothing or to text ending in a space. */
  lemma {:induction false} LeftBoundaryNormalized(pre: string)
    requires LeftBoundary(pre)
    ensures var l := DeleteBangs(DropDotsBeforeSpace(ReplaceCommas(pre))); l == [] || l[|l| - 1] == ' '
  {
    if pre == [] {
    } else if pre[|pre| - 1] == ' ' || pre[|pre| - 1] == ',' {
      EndsInSpaceNormalized(pre);
    } else {
      var p := pre[..|pre| - 1];
      assert pre == p + "!";
      LeftBoundaryNormalized(p);
      TrailingBangNormalized(p);
    }
  }

  /** Text that starts with a space still does so after the final-dot strip and the '!' deletion. */
  lemma {:induction false} SpaceLedNormalized(d: string)
    requires d != [] && d[0] == ' '
    ensures var r := DeleteBangs(StripFinalDot(d)); r != [] && r[0] == ' '
  {
    var s := StripFinalDot(d);
    assert s != [] && s[0] == ' ';
  }

  /** A right boundary normalises to nothing or to text starting with a space. */
  lemma {:induction false} RightBoundaryNormalized(post: string)
    requires RightBoundary(post)
    ensures var r := DeleteBangs(StripFinalDot(DropDotsBeforeSpace(ReplaceCommas(post))));
            r == [] || r[0] == ' '
  {
    var b := ReplaceCommas(post);
    var d := DropDotsBeforeSpace(b);
    if post == [] || post == "." {
    } else if post[0] == ' ' || post[0] == ',' {
      SpaceLedNormalized(d);
    } else if |post| >= 2 && post[0] == '.' && post[1] == ' ' {
      assert d == DropDotsBeforeSpace(b[1..]);
      assert b[1..][0] == ' ';
      SpaceLedNormalized(d);
    } else {
      var b' := ReplaceCommas(post[1..]);
      assert b == "!" + b';
      var d' := DropDotsBeforeSpace(b');
      assert d == "!" + d';
      RightBoundaryNormalized(post[1..]);
      if d' == [] {
        assert StripFinalDot(d) == "!";
      } else {
        StripFinalDotConcat("!", d');
        DeleteBangsConcat("!", StripFinalDot(d'));
      }
    }
  }

  /** A comma-free middle passes through the comma substitution unchanged. */
  lemma {:induction false} CommasAround(pre: string, w: string, post: string)
    requires ',' !in w
    ensures ReplaceCommas(pre + w + post) == ReplaceCommas(pre) + w + ReplaceCommas(post)
  {
    ReplaceCommasConcat(pre, w);
    ReplaceCommasConcat(pre + w, post);
    ReplaceCommasNoComma(w);
  }

  /** A plain middle after a non-dot passes through the ". " substitution unchanged. */
  lemma {:induction false} DotsAround(a: string, w: string, b: string)
    requires a == [] || a[|a| - 1] != '.'
    requires PlainWord(w)
    ensures DropDotsBeforeSpace(a + w + b) == DropDotsBeforeSpace(a) + w + DropDotsBeforeSpace(b)
  {
    assert a + w + b == a + (w + b);
    DropDotsConcat(a, w + b);
    DropDotsConcat(w, b);
    DropDotsNoSpace(w);
  }

  /** A middle without '!' passes through the '!' deletion unchanged. */
  lemma {:induction false} BangsAround(x: string, w: string, y: string)
    requires '!' !in w
    ensures DeleteBangs(x + w + y) == DeleteBangs(x) + w + DeleteBangs(y)
  {
    DeleteBangsConcat(x + w, y);
    DeleteBangsConcat(x, w);
    DeleteBangsNoBang(w);
  }

  /** The normaliser keeps each piece of a concatenation in place when the boundaries are safe. */
  lemma {:induction false} NormalizeAround(pre: string, w: string, post: string)
    requires PlainWord(w) && LeftBoundary(pre) && RightBoundary(post)
    ensures Normalize(pre + w + post)
         == DeleteBangs(DropDotsBeforeSpace(ReplaceCommas(pre)))
            + w
            + DeleteBangs(StripFinalDot(DropDotsBeforeSpace(ReplaceCommas(post))))
  {
    var a, b := ReplaceCommas(pre), ReplaceCommas(post);
    CommasAround(pre, w, post);
    LeftBoundaryCommas(pre);
    SubDotSpaceDropsDots(a + w + b);
    DotsAround(a, w, b);
    var da, db := DropDotsBeforeSpace(a), DropDotsBeforeSpace(b);
    StripFinalDotConcat(da + w, db);
    BangsAround(da, w, StripFinalDot(db));
  }

  /**
    A plain word written between safe boundaries (spaces, commas, ". ",
    a final '.', and any '!'s) is a whole token after normalisation.  So
    "$456.45" followed by ". " or by a final "." gives the token "$456.45":
    the inner '.' is not followed by a space and is kept.
  */
  lemma {:induction false} NormalizeKeepsWord(pre: string, w: string, post: string)
    requires PlainWord(w) && LeftBoundary(pre) && RightBoundary(post)
    ensures w in Tokens(pre + w + post)
  {
    NormalizeAround(pre, w, post);
    LeftBoundaryNormalized(pre);
    RightBoundaryNormalized(post);
    WholeWordIsToken(DeleteBangs(DropDotsBeforeSpace(ReplaceCommas(pre))), w,
                     DeleteBangs(StripFinalDot(DropDotsBeforeSpace(ReplaceCommas(post)))));
  }

  /** How the substitutions treat the text ".!". */
  lemma {:induction false} DotBangFacts()
    ensures ReplaceCommas(".!") == ".!"
    ensures DropDotsBeforeSpace(".!") == ".!"
    ensures DeleteBangs(".!") == "."
  {
  }

  /** Comma-free text is unchanged by the comma substitution. */
  lemma {:induction false} ReplaceCommasNoComma(s: string)
    requires ',' !in s
    ensures ReplaceCommas(s) == s
  {
    ReplaceCommasPointwise(s);
  }

  /**
    The '.'-strip runs before the '!'-deletion, so a dot that becomes final
    only once the '!' is gone survives: "$456.45.!" normalises to
    "$456.45." and the expected token is not found.
  */
  lemma {:induction false} BangAfterFinalDotKeepsDot(w: string)
    requires PlainWord(w)
    ensures Normalize(w + ".!") == w + "."
    ensures w !in Tokens(w + ".!")
  {
    var s := w + ".!";
    DotBangFacts();
    ReplaceCommasConcat(w, ".!");
    ReplaceCommasNoComma(w);
    assert ReplaceCommas(s) == s;
    SubDotSpaceDropsDots(s);
    DropDotsConcat(w, ".!");
    DropDotsNoSpace(w);
    assert SubDotSpace(s) == s;
    assert StripFinalDot(s) == s;
    DeleteBangsConcat(w, ".!");
    DeleteBangsNoBang(w);
    assert Normalize(s) == w + ".";
    SplitNoSpace(w + ".");
  }
}
