/** The ECMAScript string operations the components rely on: `trim`,
    `split` on one character, `join`, `includes`, `replace` of the first
    occurrence, and the comma-separated list parser
    `s.split(',').map(x => x.trim()).filter(Boolean)` shared by the admin
    managers, together with its round trip through `join(', ')`. */
module Text {

  /** WhiteSpace and LineTerminator code points, the characters that
      `String.prototype.trim` removes. */
  predicate IsSpace(c: char) {
    || c == '\t' || c == '\n' || c == '\U{B}' || c == '\U{C}' || c == '\r' || c == ' '
    || c == '\U{A0}' || c == '\U{1680}' || ('\U{2000}' <= c <= '\U{200A}')
    || c == '\U{2028}' || c == '\U{2029}' || c == '\U{202F}' || c == '\U{205F}'
    || c == '\U{3000}' || c == '\U{FEFF}'
  }

  predicate AllSpace(s: string) {
    forall i :: 0 <= i < |s| ==> IsSpace(s[i])
  }

  /** Neither end of `s` is white space: what `trim` leaves behind. */
  predicate IsTrimmed(s: string) {
    s == [] || (!IsSpace(s[0]) && !IsSpace(s[|s| - 1]))
  }

  /** How many white-space characters `s` starts with. */
  function LeadingSpace(s: string): (n: nat)
    ensures n <= |s|
    ensures n < |s| ==> !IsSpace(s[n])
  {
    if s != [] && IsSpace(s[0]) then 1 + LeadingSpace(s[1..]) else 0
  }

  /** How many white-space characters `s` ends with. */
  function TrailingSpace(s: string): (n: nat)
    ensures n <= |s|
    ensures n < |s| ==> !IsSpace(s[|s| - 1 - n])
  {
    if s != [] && IsSpace(s[|s| - 1]) then 1 + TrailingSpace(s[..|s| - 1]) else 0
  }

  lemma {:induction false} LeadingSpaceIsSpace(s: string)
    ensures forall i :: 0 <= i < LeadingSpace(s) ==> IsSpace(s[i])
  {
    if s != [] && IsSpace(s[0]) {
      LeadingSpaceIsSpace(s[1..]);
      forall i | 1 <= i < LeadingSpace(s) ensures IsSpace(s[i]) {
        assert s[i] == s[1..][i - 1];
      }
    }
  }

  lemma {:induction false} TrailingSpaceIsSpace(s: string)
    ensures forall i :: |s| - TrailingSpace(s) <= i < |s| ==> IsSpace(s[i])
  {
    if s != [] && IsSpace(s[|s| - 1]) {
      var p := s[..|s| - 1];
      TrailingSpaceIsSpace(p);
      forall i | |s| - TrailingSpace(s) <= i < |s| - 1 ensures IsSpace(s[i]) {
        assert s[i] == p[i];
      }
    }
  }

  /** `s.trimStart()`: the suffix of `s` after its leading white space. */
  function TrimStart(s: string): (r: string)
    ensures |r| <= |s|
    ensures r == [] || !IsSpace(r[0])
  {
    s[LeadingSpace(s)..]
  }

  /** `s.trimEnd()`: the prefix of `s` before its trailing white space. */
  function TrimEnd(s: string): (r: string)
    ensures |r| <= |s|
    ensures r == [] || !IsSpace(r[|r| - 1])
  {
    s[..|s| - TrailingSpace(s)]
  }

  /** `trimStart` removes exactly a white-space prefix. */
  lemma TrimStartCut(s: string)
    ensures var r := TrimStart(s); r == s[|s| - |r|..] && AllSpace(s[..|s| - |r|])
  {
    LeadingSpaceIsSpace(s);
  }

  /** `trimEnd` removes exactly a white-space suffix. */
  lemma TrimEndCut(s: string)
    ensures var r := TrimEnd(s); r == s[..|r|] && AllSpace(s[|r|..])
  {
    TrailingSpaceIsSpace(s);
  }

  /** `s.trim()`: white space removed from both ends. */
  function Trim(s: string): (r: string)
    ensures |r| <= |s| && IsTrimmed(r)
    ensures IsTrimmed(s) ==> r == s
    ensures exists a, b :: 0 <= a <= b <= |s| && r == s[a..b] && AllSpace(s[..a]) && AllSpace(s[b..])
  {
    var t := TrimStart(s);
    assert IsTrimmed(s) ==> t == s;
    TrimCut(s);
    TrimEnd(t)
  }

  /** `trim` cuts `s` between a white-space prefix and a white-space
      suffix. */
  lemma TrimCut(s: string)
    ensures var a := LeadingSpace(s);
      var b := a + |TrimStart(s)| - TrailingSpace(TrimStart(s));
      0 <= a <= b <= |s| && TrimEnd(TrimStart(s)) == s[a..b] && AllSpace(s[..a]) && AllSpace(s[b..])
  {
    var a := LeadingSpace(s);
    var t := TrimStart(s);
    var m := TrailingSpace(t);
    var b := a + |t| - m;
    LeadingSpaceIsSpace(s);
    forall i | 0 <= i < a ensures IsSpace(s[..a][i]) {
      assert s[..a][i] == s[i];
    }
    TrailingSpaceIsSpace(t);
    forall i | 0 <= i < |s| - b ensures IsSpace(s[b..][i]) {
      assert s[b..][i] == t[|t| - m + i];
    }
    assert TrimEnd(t) == t[..|t| - m] == s[a..b];
  }

  /** `trim` only removes characters: one absent from `s` is absent from
      the result. */
  lemma TrimInside(s: string, c: char)
    requires c !in s
    ensures c !in Trim(s)
  {
    var k := LeadingSpace(s);
    var t := TrimStart(s);
    var r := TrimEnd(t);
    forall j | 0 <= j < |r| ensures r[j] != c {
      assert r[j] == t[j] == s[k + j];
    }
  }

  /** `trim` gives the empty string exactly for strings of white space. */
  lemma TrimEmptyIffSpace(s: string)
    ensures Trim(s) == [] <==> AllSpace(s)
  {
    var k := LeadingSpace(s);
    var t := TrimStart(s);
    LeadingSpaceIsSpace(s);
    if k < |s| {
      TrailingSpaceIsSpace(t);
      assert t[0] == s[k];
      assert Trim(s) != [];
    }
    if AllSpace(s) {
      AllSpaceLeading(s);
    }
  }

  lemma {:induction false} AllSpaceLeading(s: string)
    requires AllSpace(s)
    ensures LeadingSpace(s) == |s|
  {
    if s != [] {
      assert AllSpace(s[1..]) by {
        forall i | 0 <= i < |s| - 1 ensures IsSpace(s[1..][i]) {
          assert s[1..][i] == s[i + 1];
        }
      }
      AllSpaceLeading(s[1..]);
    }
  }

  /** Leading white space does not change the result of `trim`. */
  lemma TrimAfterSpace(lead: string, s: string)
    requires AllSpace(lead)
    ensures Trim(lead + s) == Trim(s)
  {
    LeadingAfterSpace(lead, s);
    assert TrimStart(lead + s) == TrimStart(s);
  }

  lemma {:induction false} LeadingAfterSpace(lead: string, s: string)
    requires AllSpace(lead)
    ensures LeadingSpace(lead + s) == |lead| + LeadingSpace(s)
  {
    if lead != [] {
      assert (lead + s)[0] == lead[0];
      assert (lead + s)[1..] == lead[1..] + s;
      LeadingAfterSpace(lead[1..], s);
    } else {
      assert lead + s == s;
    }
  }

  /** White space at the end of a string adds to its trailing run. */
  lemma {:induction false} TrailingBeforeSpace(s: string, tail: string)
    requires AllSpace(tail)
    ensures TrailingSpace(s + tail) == |tail| + TrailingSpace(s)
  {
    if tail != [] {
      var u := s + tail;
      assert u[|u| - 1] == tail[|tail| - 1];
      assert u[..|u| - 1] == s + tail[..|tail| - 1];
      TrailingBeforeSpace(s, tail[..|tail| - 1]);
    } else {
      assert s + tail == s;
    }
  }

  /** A string that does not end in white space shields what is before it
      from `trimEnd`. */
  lemma {:induction false} TrailingAfterText(p: string, s: string)
    requires TrailingSpace(s) < |s|
    ensures TrailingSpace(p + s) == TrailingSpace(s)
  {
    var u := p + s;
    assert u[|u| - 1] == s[|s| - 1];
    if IsSpace(s[|s| - 1]) {
      assert u[..|u| - 1] == p + s[..|s| - 1];
      TrailingAfterText(p, s[..|s| - 1]);
    }
  }

  /** `trimEnd` leaves text that ends in a non-space character, followed
      by the trimmed rest. */
  lemma {:induction false} TrimEndAfterText(p: string, s: string, tail: string)
    requires TrailingSpace(s) < |s| && AllSpace(tail)
    ensures TrimEnd(p + s + tail) == p + TrimEnd(s)
  {
    var n := TrailingSpace(s);
    TrailingAround(p, s, tail);
    TakeMiddle(p, s, tail, |s| - n);
  }

  lemma TrailingAround(p: string, s: string, tail: string)
    requires TrailingSpace(s) < |s| && AllSpace(tail)
    ensures TrailingSpace(p + s + tail) == |tail| + TrailingSpace(s)
  {
    TrailingBeforeSpace(p + s, tail);
    TrailingAfterText(p, s);
  }

  lemma TakeMiddle(p: string, s: string, tail: string, k: nat)
    requires k <= |s|
    ensures (p + s + tail)[..|p| + k] == p + s[..k]
  {
    assert p + s + tail == p + (s + tail);
  }

  /** A string of white space after text that does not end in white space
      is removed whole by `trimEnd`. */
  lemma TrimEndSpaceTail(p: string, tail: string)
    requires TrailingSpace(p) == 0 && AllSpace(tail)
    ensures TrimEnd(p + tail) == p
  {
    TrailingBeforeSpace(p, tail);
    assert (p + tail)[..|p|] == p;
  }

  /** A string with a character other than white space does not end in a
      run that covers it. */
  lemma NotAllSpaceTrailing(s: string)
    requires !AllSpace(s)
    ensures TrailingSpace(s) < |s|
  {
    TrailingSpaceIsSpace(s);
  }

  /** `xs.join(sep)`: empty for no items, otherwise it starts with the
      first item. */
  function Join(xs: seq<string>, sep: string): (r: string)
    ensures xs == [] ==> r == ""
    ensures xs != [] ==> |xs[0]| <= |r| && r[..|xs[0]|] == xs[0]
  {
    if |xs| == 0 then ""
    else if |xs| == 1 then xs[0]
    else xs[0] + sep + Join(xs[1..], sep)
  }

  /** `s.split(sep)` for a one-character separator: the pieces of `s`
      between separators, in order; the empty string gives `[""]`. */
  function Split(s: string, sep: char): (r: seq<string>)
    ensures |r| >= 1 && |r[0]| <= |s|
  {
    if s == [] then [[]]
    else
      var rest := Split(s[1..], sep);
      if s[0] == sep then [[]] + rest
      else [[s[0]] + rest[0]] + rest[1..]
  }

  /** The pieces are maximal (none holds the separator) and joining them
      with the separator gives `s` back. */
  lemma {:induction false} SplitSpec(s: string, sep: char)
    ensures forall i :: 0 <= i < |Split(s, sep)| ==> sep !in Split(s, sep)[i]
    ensures Join(Split(s, sep), [sep]) == s
  {
    if s != [] {
      var rest := Split(s[1..], sep);
      SplitSpec(s[1..], sep);
      if s[0] == sep {
        assert Join([[]] + rest, [sep]) == [sep] + Join(rest, [sep]) by {
          assert ([[]] + rest)[1..] == rest;
        }
        assert s == [sep] + s[1..];
      } else {
        var r := [[s[0]] + rest[0]] + rest[1..];
        assert r[1..] == rest[1..];
        assert Join(r, [sep]) == [s[0]] + Join(rest, [sep]) by {
          if |rest| > 1 {
            assert Join(rest, [sep]) == rest[0] + [sep] + Join(rest[1..], [sep]);
          }
        }
        assert s == [s[0]] + s[1..];
      }
    }
  }

  /** `s.split(sep)[0]` is the part of `s` before its first separator, and
      all of `s` when there is none. */
  lemma {:induction false} SplitHead(s: string, sep: char)
    ensures Split(s, sep)[0] == s[..|Split(s, sep)[0]|]
    ensures sep in s ==> |Split(s, sep)[0]| < |s| && s[|Split(s, sep)[0]|] == sep
    ensures sep !in s ==> Split(s, sep) == [s]
  {
    if s != [] {
      SplitHead(s[1..], sep);
      if s[0] != sep {
        assert sep in s ==> sep in s[1..] by {
          if sep in s {
            var k :| 0 <= k < |s| && s[k] == sep;
            assert s[1..][k - 1] == sep;
          }
        }
        assert s == [s[0]] + s[1..];
      }
    }
  }

  /** A piece without the separator, then the separator, splits off as one item. */
  lemma {:induction false} SplitAfterPiece(a: string, b: string, sep: char)
    requires sep !in a
    ensures Split(a + [sep] + b, sep) == [a] + Split(b, sep)
  {
    if a != [] {
      assert (a + [sep] + b)[1..] == a[1..] + [sep] + b;
      SplitAfterPiece(a[1..], b, sep);
      assert [a[0]] + a[1..] == a;
    } else {
      assert (a + [sep] + b)[1..] == b;
    }
  }

  /** A non-empty string without a comma and without white space at either end:
      what the comma-list parser produces and what joins back losslessly. */
  predicate IsCleanItem(x: string) {
    x != [] && IsTrimmed(x) && ',' !in x
  }

  function TrimAll(xs: seq<string>): seq<string> {
    if xs == [] then [] else [Trim(xs[0])] + TrimAll(xs[1..])
  }

  lemma {:induction false} TrimAllAt(xs: seq<string>)
    ensures |TrimAll(xs)| == |xs|
    ensures forall i :: 0 <= i < |xs| ==> TrimAll(xs)[i] == Trim(xs[i])
  {
    if xs != [] {
      var tail := xs[1..];
      TrimAllAt(tail);
      var r := TrimAll(tail);
      assert TrimAll(xs) == [Trim(xs[0])] + r;
      forall i | 1 <= i < |xs| ensures TrimAll(xs)[i] == Trim(xs[i]) {
        assert tail[i - 1] == xs[i];
      }
    }
  }

  /** `.filter(Boolean)` on strings: drops the empty ones. */
  function DropEmpty(xs: seq<string>): (r: seq<string>)
    ensures |r| <= |xs|
    ensures (forall i :: 0 <= i < |xs| ==> xs[i] != []) ==> r == xs
  {
    if xs == [] then []
    else if xs[0] == [] then DropEmpty(xs[1..])
    else [xs[0]] + DropEmpty(xs[1..])
  }

  /** What `.filter(Boolean)` keeps: exactly the non-empty items. */
  lemma {:induction false} DropEmptyKeeps(xs: seq<string>)
    ensures forall i :: 0 <= i < |DropEmpty(xs)| ==> DropEmpty(xs)[i] != [] && DropEmpty(xs)[i] in xs
    ensures forall x :: x in xs && x != [] ==> x in DropEmpty(xs)
  {
    if xs != [] {
      DropEmptyKeeps(xs[1..]);
      assert xs == [xs[0]] + xs[1..];
    }
  }

  lemma {:induction false} DropEmptyAppend(a: seq<string>, b: seq<string>)
    ensures DropEmpty(a + b) == DropEmpty(a) + DropEmpty(b)
  {
    if a != [] {
      assert (a + b)[1..] == a[1..] + b;
      DropEmptyAppend(a[1..], b);
    } else {
      assert a + b == b;
    }
  }

  /** `s.split(',').map(x => x.trim()).filter(Boolean)`: at most one item
      per comma-separated piece. */
  function ParseList(s: string): (r: seq<string>)
    ensures |r| <= |Split(s, ',')|
  {
    TrimAllAt(Split(s, ','));
    DropEmpty(TrimAll(Split(s, ',')))
  }

  /** Every parsed item is non-empty, trimmed and comma-free. */
  lemma ParseListClean(s: string)
    ensures forall i :: 0 <= i < |ParseList(s)| ==> IsCleanItem(ParseList(s)[i])
  {
    var pieces := Split(s, ',');
    var ts := TrimAll(pieces);
    SplitSpec(s, ',');
    TrimAllAt(pieces);
    forall k | 0 <= k < |ts| ensures ',' !in ts[k] && IsTrimmed(ts[k]) {
      TrimInside(pieces[k], ',');
    }
    DropEmptyKeeps(ts);
  }

  /** A segment without a comma parses to its trimmed text, or to nothing when blank. */
  lemma SegmentParse(a: string)
    requires ',' !in a
    ensures ParseList(a) == if Trim(a) == [] then [] else [Trim(a)]
  {
    SplitHead(a, ',');
    assert TrimAll([a]) == [Trim(a)];
    assert DropEmpty([Trim(a)]) == if Trim(a) == [] then [] else [Trim(a)] by {
      assert [Trim(a)][1..] == [];
    }
  }

  /** Parsing proceeds segment by segment, keeping their order. */
  lemma ParseAfterSegment(a: string, b: string)
    requires ',' !in a
    ensures ParseList(a + [','] + b) == ParseList(a) + ParseList(b)
  {
    var pb := Split(b, ',');
    assert Split(a + [','] + b, ',') == [a] + pb by { SplitAfterPiece(a, b, ','); }
    assert Split(a, ',') == [a] by { SplitHead(a, ','); }
    var ta := TrimAll([a] + pb);
    assert ta == [Trim(a)] + TrimAll(pb) by {
      assert ([a] + pb)[1..] == pb;
    }
    assert DropEmpty(ta) == DropEmpty([Trim(a)]) + DropEmpty(TrimAll(pb)) by {
      DropEmptyAppend([Trim(a)], TrimAll(pb));
    }
    assert TrimAll([a]) == [Trim(a)];
  }

  /** A trailing comma adds nothing to the parse. */
  lemma {:induction false} ParseTrailingComma(s: string)
    ensures ParseList(s + [',']) == ParseList(s)
    decreases |s|
  {
    if ',' !in s {
      ParseAfterSegment(s, "");
      assert s + [','] == s + [','] + "";
      assert Split("", ',') == [""];
      assert TrimAll([""]) == [Trim("")];
      assert DropEmpty([""]) == [] by { assert [""][1..] == []; }
    } else {
      var k := IndexFrom(s, ',', 0);
      assert k < |s|;
      var a, b := s[..k], s[k + 1..];
      assert ',' !in a;
      assert s == a + [','] + b;
      assert s + [','] == a + [','] + (b + [',']);
      ParseAfterSegment(a, b + [',']);
      ParseAfterSegment(a, b);
      ParseTrailingComma(b);
    }
  }

  /** Joining clean items with ", " and parsing the result gives the items back. */
  lemma ParseJoin(xs: seq<string>)
    requires forall i :: 0 <= i < |xs| ==> IsCleanItem(xs[i])
    ensures ParseList(Join(xs, ", ")) == xs
  {
    if xs == [] {
      assert Split("", ',') == [""];
      assert DropEmpty([""]) == [] by { assert [""][1..] == []; }
    } else {
      ParseJoinNonEmpty(xs);
    }
  }

  lemma ParseJoinNonEmpty(xs: seq<string>)
    requires xs != [] && forall i :: 0 <= i < |xs| ==> IsCleanItem(xs[i])
    ensures ParseList(Join(xs, ", ")) == xs
  {
    SplitJoinFromStart(xs);
    TrimSpaced([], xs);
    DropEmptyOfNonEmpty(xs);
  }

  lemma SplitJoinFromStart(xs: seq<string>)
    requires forall i :: 0 <= i < |xs| ==> ',' !in xs[i]
    ensures Split(Join(xs, ", "), ',') == Spaced([], xs)
  {
    assert [] + Join(xs, ", ") == Join(xs, ", ");
    SplitJoin([], xs);
  }

  /** The pieces `s.split(',')` yields for `lead + xs.join(", ")`: every item
      after the first keeps the blank that follows its comma. */
  function Spaced(lead: string, xs: seq<string>): seq<string>
    decreases |xs|
  {
    if xs == [] then [lead]
    else if |xs| == 1 then [lead + xs[0]]
    else [lead + xs[0]] + Spaced(" ", xs[1..])
  }

  lemma {:induction false} SplitJoin(lead: string, xs: seq<string>)
    requires ',' !in lead
    requires forall i :: 0 <= i < |xs| ==> ',' !in xs[i]
    ensures Split(lead + Join(xs, ", "), ',') == Spaced(lead, xs)
    decreases |xs|
  {
    if xs == [] {
      assert lead + Join(xs, ", ") == lead;
      SplitHead(lead, ',');
    } else {
      var x := xs[0];
      assert ',' !in lead + x by {
        forall i | 0 <= i < |lead + x| ensures (lead + x)[i] != ',' {
          if i < |lead| { assert (lead + x)[i] == lead[i]; } else { assert (lead + x)[i] == x[i - |lead|]; }
        }
      }
      if |xs| == 1 {
        assert lead + Join(xs, ", ") == lead + x;
        SplitHead(lead + x, ',');
      } else {
        var rest := xs[1..];
        assert lead + Join(xs, ", ") == (lead + x) + [','] + (" " + Join(rest, ", "));
        SplitAfterPiece(lead + x, " " + Join(rest, ", "), ',');
        SplitJoin(" ", rest);
      }
    }
  }

  lemma {:induction false} TrimSpaced(lead: string, xs: seq<string>)
    requires AllSpace(lead)
    requires forall i :: 0 <= i < |xs| ==> IsCleanItem(xs[i])
    ensures TrimAll(Spaced(lead, xs)) == if xs == [] then [""] else xs
    decreases |xs|
  {
    if xs == [] {
      assert TrimAll([lead]) == [Trim(lead)];
    } else {
      var rest := xs[1..];
      if rest != [] {
        assert AllSpace(" ") by { assert " "[0] == ' '; }
        assert forall i :: 0 <= i < |rest| ==> rest[i] == xs[i + 1];
        TrimSpaced(" ", rest);
      }
      TrimSpacedHead(lead, xs[0], rest);
      assert xs == [xs[0]] + rest;
    }
  }

  lemma TrimSpacedHead(lead: string, x: string, rest: seq<string>)
    requires AllSpace(lead) && IsCleanItem(x)
    ensures rest == [] ==> TrimAll(Spaced(lead, [x] + rest)) == [x]
    ensures rest != [] ==> TrimAll(Spaced(lead, [x] + rest)) == [x] + TrimAll(Spaced(" ", rest))
  {
    TrimAfterSpace(lead, x);
    assert Trim(lead + x) == x;
    SpacedCons(lead, x, rest);
    if rest == [] {
      TrimAllCons(lead + x, []);
    } else {
      TrimAllCons(lead + x, Spaced(" ", rest));
    }
  }

  lemma SpacedCons(lead: string, x: string, rest: seq<string>)
    ensures rest == [] ==> Spaced(lead, [x] + rest) == [lead + x]
    ensures rest != [] ==> Spaced(lead, [x] + rest) == [lead + x] + Spaced(" ", rest)
  {
    assert ([x] + rest)[0] == x && ([x] + rest)[1..] == rest;
  }

  lemma TrimAllCons(a: string, rest: seq<string>)
    ensures TrimAll([a] + rest) == [Trim(a)] + TrimAll(rest)
  {
    assert ([a] + rest)[0] == a && ([a] + rest)[1..] == rest;
  }

  lemma {:induction false} DropEmptyOfNonEmpty(xs: seq<string>)
    requires forall i :: 0 <= i < |xs| ==> xs[i] != []
    ensures DropEmpty(xs) == xs
  {
    if xs != [] {
      DropEmptyOfNonEmpty(xs[1..]);
      assert xs == [xs[0]] + xs[1..];
    }
  }

  /** `s.includes(t)` */
  predicate Contains(s: string, t: string)
    decreases |s|
  {
    |t| <= |s| && (s[..|t|] == t || Contains(s[1..], t))
  }

  lemma {:induction false} ContainsSuffix(a: string, t: string)
    ensures Contains(a + t, t)
  {
    if a != [] {
      assert (a + t)[1..] == a[1..] + t;
      ContainsSuffix(a[1..], t);
    } else {
      assert (a + t)[..|t|] == t;
    }
  }

  /** `s.indexOf(c, i)`, or `|s|` when `c` does not occur from `i` on. */
  function IndexFrom(s: string, c: char, i: nat): (k: nat)
    requires i <= |s|
    ensures i <= k <= |s|
    ensures forall j :: i <= j < k ==> s[j] != c
    ensures k < |s| ==> s[k] == c
    decreases |s| - i
  {
    if i == |s| || s[i] == c then i else IndexFrom(s, c, i + 1)
  }

  /** `s.replace(c, repl)` with a one-character pattern: the first
      occurrence, if any, is replaced. */
  function ReplaceFirst(s: string, c: char, repl: string): (r: string)
    ensures c !in s ==> r == s
    ensures c in s ==> |r| == |s| - 1 + |repl|
    ensures c in s ==> exists k :: 0 <= k < |s| && s[k] == c && c !in s[..k] && r == s[..k] + repl + s[k + 1..]
  {
    var k := IndexFrom(s, c, 0);
    if k < |s| then s[..k] + repl + s[k + 1..] else s
  }

  /** Only the first occurrence is replaced, and the rest of `s` is kept. */
  lemma ReplaceFirstAt(s: string, c: char, repl: string, k: nat)
    requires k < |s| && s[k] == c && c !in s[..k]
    ensures ReplaceFirst(s, c, repl) == s[..k] + repl + s[k + 1..]
  {
    assert forall j :: 0 <= j < k ==> s[..k][j] == s[j];
  }

  /** Without an occurrence, `replace` changes nothing. */
  lemma ReplaceFirstAbsent(s: string, c: char, repl: string)
    requires c !in s
    ensures ReplaceFirst(s, c, repl) == s
  {
  }

  /** `toUpperCase` on the ASCII letters (the status values are ASCII). */
  function UpperChar(c: char): (u: char)
    ensures 'a' <= c <= 'z' ==> 'A' <= u <= 'Z' && u as int == c as int - 32
    ensures !('a' <= c <= 'z') ==> u == c
  {
    if 'a' <= c <= 'z' then (c as int - 32) as char else c
  }

  /** `toUpperCase`: each character mapped on its own. */
  function ToUpper(s: string): (r: string)
    ensures |r| == |s|
    ensures forall i :: 0 <= i < |s| ==> r[i] == UpperChar(s[i])
  {
    seq(|s|, i requires 0 <= i < |s| => UpperChar(s[i]))
  }
}
