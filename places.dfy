/** Free-text place handling for the Open-Meteo geocoder: normalising what the user
    typed, splitting it into city / region / country, deriving country and US-state
    hints, and narrowing the geocoder's candidates down to one. */
module Places {
  import opened Basics
  import opened Text

  // ---------------------------------------------------------------- normalizePlace

  /** The first replacement of `normalizePlace` (optional whitespace, a comma, optional
      whitespace, all occurrences, by ", "): every comma, together with the whitespace on
      both sides of it, becomes ", ". Whitespace not next to a comma is copied. */
  function CommaRuns(s: string): string
    decreases |s|
  {
    if s == [] then []
    else
      var w := LeadingSpaces(s);
      if w < |s| && s[w] == ',' then
        ", " + CommaRuns(SkipSpaces(s[w + 1..]))
      else if w > 0 then s[..w] + CommaRuns(s[w..])
      else [s[0]] + CommaRuns(s[1..])
  }

  /** `s` without its leading whitespace. */
  function SkipSpaces(s: string): (r: string)
    ensures |r| <= |s|
  {
    if s != [] && IsSpace(s[0]) then SkipSpaces(s[1..]) else s
  }

  lemma {:induction false} SkipSpacesDrops(s: string)
    ensures SkipSpaces(s) == s[LeadingSpaces(s)..]
  {
    if s != [] && IsSpace(s[0]) {
      SkipSpacesDrops(s[1..]);
      assert s[1..][LeadingSpaces(s[1..])..] == s[LeadingSpaces(s)..];
    }
  }

  /** Text that does not start with whitespace still does not after the rewrite. */
  lemma CommaRunsStart(s: string)
    requires s != [] && !IsSpace(s[0])
    ensures CommaRuns(s) != [] && !IsSpace(CommaRuns(s)[0])
  {
    if s[0] == ',' {
      CommaRunsAtComma(s, 0);
    } else {
      CommaRunsAtChar(s);
    }
  }

  /** No whitespace other than a plain space, and never two whitespace characters in a row. */
  predicate SingleSpaced(s: string) {
    forall i :: 0 <= i < |s| && IsSpace(s[i]) ==> s[i] == ' ' && (i + 1 < |s| ==> !IsSpace(s[i + 1]))
  }

  /** The second replacement of `normalizePlace`: every whitespace run becomes one space. */
  function Collapse(s: string): (r: string)
    ensures (r == []) == (s == [])
    ensures r != [] ==> (IsSpace(r[0]) <==> IsSpace(s[0]))
    ensures SingleSpaced(r)
    decreases |s|
  {
    if s == [] then []
    else
      var w := LeadingSpaces(s);
      if w > 0 then SpaceIff(' '); " " + Collapse(s[w..]) else [s[0]] + Collapse(s[1..])
  }

  /** `normalizePlace(input)` */
  function Normalize(input: string): string {
    Collapse(CommaRuns(Trim(input)))
  }

  lemma SpacesText(s: string)
    requires AllSpace(s)
    ensures NonSpace(s) == []
  {
    NonSpaceOfSpaces(s);
  }

  /** Splitting off a whitespace prefix leaves the text unchanged. */
  lemma {:induction false} DropSpacesText(s: string, w: nat)
    requires w <= |s| && forall k :: 0 <= k < w ==> IsSpace(s[k])
    ensures NonSpace(s[w..]) == NonSpace(s)
    decreases w
  {
    if w > 0 {
      var t := s[1..];
      forall k | 0 <= k < w - 1 ensures IsSpace(t[k]) { assert t[k] == s[k + 1]; }
      DropSpacesText(t, w - 1);
      assert t[w - 1..] == s[w..];
      assert IsSpace(s[0]);
    }
  }

  lemma {:induction false} CommaRunsText(s: string)
    ensures NonSpace(CommaRuns(s)) == NonSpace(s)
    decreases |s|
  {
    if s != [] {
      var w := LeadingSpaces(s);
      if w < |s| && s[w] == ',' {
        CommaRunsText(SkipSpaces(s[w + 1..]));
        CommaStepText(s, w);
      } else if w > 0 {
        CommaRunsText(s[w..]);
        SpaceStepText(s, w);
      } else {
        CommaRunsText(s[1..]);
        CharStepText(s);
      }
    }
  }

  /** A comma with whitespace around it is rewritten to ", ": the same text. */
  lemma CommaStepText(s: string, w: nat)
    requires w == LeadingSpaces(s) && w < |s| && s[w] == ','
    requires NonSpace(CommaRuns(SkipSpaces(s[w + 1..]))) == NonSpace(SkipSpaces(s[w + 1..]))
    ensures NonSpace(CommaRuns(s)) == NonSpace(s)
  {
    var after := s[w + 1..];
    var post := CommaRuns(SkipSpaces(after));
    CommaRunsAtComma(s, w);
    NonSpaceAppend(", ", post);
    CommaSpaceText();
    SkipSpacesText(after);
    NonSpaceAppend([','], after);
    assert s[w..] == [','] + after;
    DropSpacesText(s, w);
  }

  lemma CommaSpaceText()
    ensures NonSpace(", ") == [',']
  {
    SpaceIff(' ');
    VisibleNotSpace(',');
    assert ", "[1..] == " " && " "[1..] == [];
  }

  lemma SkipSpacesText(s: string)
    ensures NonSpace(SkipSpaces(s)) == NonSpace(s)
  {
    SkipSpacesDrops(s);
    DropSpacesText(s, LeadingSpaces(s));
  }

  /** Whitespace not followed by a comma is copied. */
  lemma SpaceStepText(s: string, w: nat)
    requires w == LeadingSpaces(s) && 0 < w && !(w < |s| && s[w] == ',')
    requires NonSpace(CommaRuns(s[w..])) == NonSpace(s[w..])
    ensures NonSpace(CommaRuns(s)) == NonSpace(s)
  {
    var pre := s[..w];
    var post := CommaRuns(s[w..]);
    CommaRunsAtSpace(s, w);
    assert AllSpace(pre) by {
      forall k | 0 <= k < |pre| ensures IsSpace(pre[k]) {
        assert pre[k] == s[k];
      }
    }
    SpacesText(pre);
    NonSpaceAppend(pre, post);
    assert NonSpace(pre) + NonSpace(post) == NonSpace(post);
    DropSpacesText(s, w);
  }

  /** Any other character is copied. */
  lemma CharStepText(s: string)
    requires s != [] && LeadingSpaces(s) == 0 && s[0] != ','
    requires NonSpace(CommaRuns(s[1..])) == NonSpace(s[1..])
    ensures NonSpace(CommaRuns(s)) == NonSpace(s)
  {
    CommaRunsAtChar(s);
    NonSpaceAppend([s[0]], CommaRuns(s[1..]));
    NonSpaceAppend([s[0]], s[1..]);
    assert s == [s[0]] + s[1..];
  }

  lemma CommaRunsAtComma(s: string, w: nat)
    requires w == LeadingSpaces(s) && w < |s| && s[w] == ','
    ensures CommaRuns(s) == ", " + CommaRuns(SkipSpaces(s[w + 1..]))
  {
    assert s != [];
  }

  lemma CommaRunsAtSpace(s: string, w: nat)
    requires w == LeadingSpaces(s) && 0 < w && !(w < |s| && s[w] == ',')
    ensures CommaRuns(s) == s[..w] + CommaRuns(s[w..])
  {
  }

  lemma CommaRunsAtChar(s: string)
    requires s != [] && LeadingSpaces(s) == 0 && s[0] != ','
    ensures CommaRuns(s) == [s[0]] + CommaRuns(s[1..])
  {
  }

  lemma {:induction false} CollapseText(s: string)
    ensures NonSpace(Collapse(s)) == NonSpace(s)
    decreases |s|
  {
    if s != [] {
      var w := LeadingSpaces(s);
      if w > 0 {
        CollapseText(s[w..]);
        NonSpaceAppend(" ", Collapse(s[w..]));
        DropSpacesText(s, w);
      } else {
        CollapseText(s[1..]);
        NonSpaceAppend([s[0]], Collapse(s[1..]));
        NonSpaceAppend([s[0]], s[1..]);
        assert s == [s[0]] + s[1..];
      }
    }
  }

  lemma TrimText(s: string)
    ensures NonSpace(Trim(s)) == NonSpace(s)
  {
    var r := Trim(s);
    var i := LeadingSpaces(s);
    calc {
      NonSpace(s);
    == { assert s == s[..i] + r + s[i + |r|..]; }
      NonSpace(s[..i] + r + s[i + |r|..]);
    == { NonSpaceAppend(s[..i] + r, s[i + |r|..]); NonSpaceAppend(s[..i], r); }
      NonSpace(s[..i]) + NonSpace(r) + NonSpace(s[i + |r|..]);
    == { SpacesText(s[..i]); SpacesText(s[i + |r|..]); }
      NonSpace(r);
    }
  }

  /** Normalising only rewrites whitespace: the other characters are kept, in order;
      the result starts with a non-space (when not empty) and every whitespace run in
      it is a single plain space. */
  lemma NormalizeShape(input: string)
    ensures NonSpace(Normalize(input)) == NonSpace(input)
    ensures SingleSpaced(Normalize(input))
    ensures Normalize(input) != [] ==> !IsSpace(Normalize(input)[0])
    ensures Normalize(input) == [] <==> AllSpace(input)
  {
    var t := Trim(input);
    TrimText(input);
    CommaRunsText(t);
    CollapseText(CommaRuns(t));
    if t != [] {
      assert !IsSpace(t[0]);
      CommaRunsStart(t);
    }
  }

  /** Every comma is followed by a plain space. */
  predicate CommaThenSpace(s: string) {
    forall i :: 0 <= i < |s| && s[i] == ',' ==> i + 1 < |s| && s[i + 1] == ' '
  }

  /** White space right before a comma only ever follows another comma: it is the
      space of the ", " an earlier comma became. */
  predicate SpaceBeforeCommaAfterComma(s: string) {
    forall i :: 1 <= i < |s| && s[i] == ',' && IsSpace(s[i - 1]) ==> 2 <= i && s[i - 2] == ','
  }

  /** Every comma of a normalised place reads ", ", and the white space around a comma
      is absorbed: a space before a comma only comes right after another comma. */
  lemma NormalizeCommaSpacing(input: string)
    ensures CommaThenSpace(Normalize(input))
    ensures SpaceBeforeCommaAfterComma(Normalize(input))
  {
    var t := Trim(input);
    var c := CommaRuns(t);
    CommaRunsCommaThenSpace(t);
    CollapseCommaThenSpace(c);
    CommaRunsSpaceBeforeComma(t);
    if t != [] {
      assert !IsSpace(t[0]);
      CommaRunsStart(t);
    }
    CollapseSpaceBeforeComma(c);
  }

  lemma CommaThenSpaceJoin(u: string, x: string)
    requires forall i :: 0 <= i < |u| - 1 && u[i] == ',' ==> u[i + 1] == ' '
    requires u != [] && u[|u| - 1] == ',' ==> x != [] && x[0] == ' '
    requires CommaThenSpace(x)
    ensures CommaThenSpace(u + x)
  {
    var t := u + x;
    forall i | 0 <= i < |t| && t[i] == ',' ensures i + 1 < |t| && t[i + 1] == ' ' {
      if i >= |u| {
        assert x[i - |u|] == ',';
      }
    }
  }

  lemma CommaThenSpaceSuffix(s: string, k: nat)
    requires CommaThenSpace(s) && k <= |s|
    ensures CommaThenSpace(s[k..])
  {
    forall j | 0 <= j < |s| - k && s[k..][j] == ',' ensures j + 1 < |s| - k && s[k..][j + 1] == ' ' {
      assert s[k + j] == ',';
    }
  }

  lemma {:induction false} CommaRunsCommaThenSpace(s: string)
    ensures CommaThenSpace(CommaRuns(s))
    decreases |s|
  {
    if s != [] {
      var w := LeadingSpaces(s);
      VisibleNotSpace(',');
      if w < |s| && s[w] == ',' {
        var rest := SkipSpaces(s[w + 1..]);
        CommaRunsCommaThenSpace(rest);
        CommaRunsAtComma(s, w);
        CommaThenSpaceJoin(", ", CommaRuns(rest));
      } else if w > 0 {
        CommaRunsCommaThenSpace(s[w..]);
        CommaRunsAtSpace(s, w);
        assert forall i :: 0 <= i < w ==> s[..w][i] != ',';
        CommaThenSpaceJoin(s[..w], CommaRuns(s[w..]));
      } else {
        CommaRunsCommaThenSpace(s[1..]);
        CommaRunsAtChar(s);
        CommaThenSpaceJoin([s[0]], CommaRuns(s[1..]));
      }
    }
  }

  lemma {:induction false} CollapseCommaThenSpace(s: string)
    requires CommaThenSpace(s)
    ensures CommaThenSpace(Collapse(s))
    decreases |s|
  {
    if s != [] {
      var w := LeadingSpaces(s);
      if w > 0 {
        CommaThenSpaceSuffix(s, w);
        CollapseCommaThenSpace(s[w..]);
        CommaThenSpaceJoin(" ", Collapse(s[w..]));
      } else {
        CommaThenSpaceSuffix(s, 1);
        CollapseCommaThenSpace(s[1..]);
        if s[0] == ',' {
          SpaceIff(' ');
          assert IsSpace(s[1..][0]);
        }
        CommaThenSpaceJoin([s[0]], Collapse(s[1..]));
      }
    }
  }

  lemma SpaceBeforeCommaJoin(u: string, x: string)
    requires SpaceBeforeCommaAfterComma(u) && SpaceBeforeCommaAfterComma(x)
    requires u != [] && x != [] && x[0] == ',' && IsSpace(u[|u| - 1]) ==> 2 <= |u| && u[|u| - 2] == ','
    ensures SpaceBeforeCommaAfterComma(u + x)
  {
    var t := u + x;
    forall i | 1 <= i < |t| && t[i] == ',' && IsSpace(t[i - 1]) ensures 2 <= i && t[i - 2] == ',' {
      if i > |u| {
        assert x[i - |u|] == ',' && IsSpace(x[i - |u| - 1]);
      } else if i < |u| {
        assert u[i] == ',' && IsSpace(u[i - 1]);
      }
    }
  }

  lemma SpaceBeforeCommaSuffix(s: string, k: nat)
    requires SpaceBeforeCommaAfterComma(s) && k <= |s| && (k < |s| ==> !IsSpace(s[k]))
    ensures SpaceBeforeCommaAfterComma(s[k..])
  {
    var t := s[k..];
    forall j | 1 <= j < |t| && t[j] == ',' && IsSpace(t[j - 1]) ensures 2 <= j && t[j - 2] == ',' {
      assert s[k + j] == ',' && IsSpace(s[k + j - 1]);
    }
  }

  lemma {:induction false} CommaRunsSpaceBeforeComma(s: string)
    ensures SpaceBeforeCommaAfterComma(CommaRuns(s))
    decreases |s|
  {
    if s != [] {
      var w := LeadingSpaces(s);
      VisibleNotSpace(',');
      if w < |s| && s[w] == ',' {
        var rest := SkipSpaces(s[w + 1..]);
        CommaRunsSpaceBeforeComma(rest);
        CommaRunsAtComma(s, w);
        SpaceBeforeCommaJoin(", ", CommaRuns(rest));
      } else if w > 0 {
        CommaRunsSpaceBeforeComma(s[w..]);
        CommaRunsAtSpace(s, w);
        assert forall i :: 0 <= i < w ==> s[..w][i] != ',';
        if w < |s| {
          CommaRunsAtChar(s[w..]);
        }
        SpaceBeforeCommaJoin(s[..w], CommaRuns(s[w..]));
      } else {
        CommaRunsSpaceBeforeComma(s[1..]);
        CommaRunsAtChar(s);
        SpaceBeforeCommaJoin([s[0]], CommaRuns(s[1..]));
      }
    }
  }

  /** Collapsing keeps the property, one character and the white space after it at a time. */
  lemma {:induction false} CollapseSpaceBeforeComma(s: string)
    requires SpaceBeforeCommaAfterComma(s) && (s == [] || !IsSpace(s[0]))
    ensures SpaceBeforeCommaAfterComma(Collapse(s))
    decreases |s|
  {
    if s != [] {
      var t := s[1..];
      var w := LeadingSpaces(t);
      var rest := t[w..];
      assert rest == s[1 + w..];
      SpaceBeforeCommaSuffix(s, 1 + w);
      CollapseSpaceBeforeComma(rest);
      VisibleNotSpace(',');
      if w > 0 {
        var u := [s[0], ' '];
        assert Collapse(s) == u + Collapse(rest);
        if rest != [] && rest[0] == ',' {
          assert Collapse(rest)[0] == ',';
          assert s[1 + w] == ',' && IsSpace(s[w]);
          assert s[w - 1] == ',';
        }
        SpaceBeforeCommaJoin(u, Collapse(rest));
      } else {
        assert Collapse(s) == [s[0]] + Collapse(rest);
        SpaceBeforeCommaJoin([s[0]], Collapse(rest));
      }
    }
  }

  /** A non-space character occurs in a string exactly when it occurs in its text. */
  lemma {:induction false} InNonSpace(s: string, c: char)
    requires !IsSpace(c)
    ensures c in s <==> c in NonSpace(s)
  {
    if s != [] {
      InNonSpace(s[1..], c);
      assert s == [s[0]] + s[1..];
    }
  }

  // ---------------------------------------------------------------- parsePlaceParts

  datatype PlaceParts = PlaceParts(city: string, regionOrState: string, country: string)

  function TrimAll(ps: seq<string>): (r: seq<string>)
    ensures |r| == |ps| && forall i :: 0 <= i < |ps| ==> r[i] == Trim(ps[i])
  {
    seq(|ps|, i requires 0 <= i < |ps| => Trim(ps[i]))
  }

  lemma TrimInside(s: string)
    ensures forall c :: c in Trim(s) ==> c in s
  {
    var r := Trim(s);
    var i := LeadingSpaces(s);
    forall c | c in r ensures c in s {
      var k :| 0 <= k < |r| && r[k] == c;
      assert s[i + k] == c;
    }
  }

  predicate NonEmptyText(x: string) {
    x != ""
  }

  /** The non-empty trimmed comma-separated segments of the normalised input, in order. */
  function Segments(input: string): (r: seq<string>)
    ensures forall x :: x in r ==> x != "" && IsTrimmed(x) && ',' !in x
  {
    var pieces := Split(Normalize(input), ",");
    var trimmed := TrimAll(pieces);
    assert forall x :: x in trimmed ==> IsTrimmed(x) && ',' !in x by {
      forall x | x in trimmed ensures IsTrimmed(x) && ',' !in x {
        var i :| 0 <= i < |trimmed| && trimmed[i] == x;
        assert pieces[i] in pieces;
        ContainsSingle(pieces[i], ',');
        TrimInside(pieces[i]);
      }
    }
    Filter(trimmed, NonEmptyText)
  }

  function At(ps: seq<string>, i: nat): string {
    if i < |ps| then ps[i] else ""
  }

  /** `parsePlaceParts(input)`: the first three segments; missing ones are "". */
  function ParsePlaceParts(input: string): (r: PlaceParts)
    ensures IsTrimmed(r.city) && IsTrimmed(r.regionOrState) && IsTrimmed(r.country)
    ensures ',' !in r.city && ',' !in r.regionOrState && ',' !in r.country
    ensures r.city == "" ==> r.regionOrState == ""
    ensures r.regionOrState == "" ==> r.country == ""
  {
    var ps := Segments(input);
    assert forall i :: 0 <= i < |ps| ==> ps[i] in ps;
    PlaceParts(At(ps, 0), At(ps, 1), At(ps, 2))
  }

  /** Input without a comma is all city. */
  lemma NoCommaAllCity(input: string)
    requires ',' !in input
    ensures ParsePlaceParts(input) == PlaceParts(Trim(Normalize(input)), "", "")
  {
    var n := Normalize(input);
    assert ',' !in n by {
      NormalizeShape(input);
      VisibleNotSpace(',');
      InNonSpace(input, ',');
      InNonSpace(n, ',');
    }
    assert Segments(input) == Filter([Trim(n)], NonEmptyText) by {
      SplitWithoutSeparator(n);
      assert TrimAll([n]) == [Trim(n)];
    }
    assert Filter([Trim(n)], NonEmptyText) == if Trim(n) == "" then [] else [Trim(n)];
  }

  /** A part as a user would type it between commas: not empty, no comma, no white
      space at either end and single spaces inside. */
  predicate PlainPart(x: string) {
    x != "" && ',' !in x && IsTrimmed(x) && SingleSpaced(x)
  }

  /** "a , b,,c,d": white space around a comma is absorbed, the empty segment between
      two commas is dropped, the first three parts fill city, region and country, and
      the fourth part is ignored. */
  lemma ParsePlacePartsOfTypedPlace(a: string, b: string, c: string, d: string)
    requires PlainPart(a) && PlainPart(b) && PlainPart(c) && PlainPart(d)
    ensures ParsePlaceParts(a + " , " + b + ",," + c + "," + d) == PlaceParts(a, b, c)
  {
    SegmentsOfTypedPlace(a, b, c, d);
  }

  lemma SegmentsOfTypedPlace(a: string, b: string, c: string, d: string)
    requires PlainPart(a) && PlainPart(b) && PlainPart(c) && PlainPart(d)
    ensures Segments(a + " , " + b + ",," + c + "," + d) == [a, b, c, d]
  {
    var input := a + " , " + b + ",," + c + "," + d;
    TypedPlaceNormalizes(a, b, c, d);
    TypedPlaceSplits(a, b, c, d);
    TrimTypedParts(a, b, c, d);
    FilterTypedParts(a, b, c, d);
  }

  /** Trimming a leading part that is white space and a trimmed text. */
  lemma TrimAllCons(sp: string, x: string, rest: seq<string>, r: seq<string>)
    requires AllSpace(sp) && IsTrimmed(x) && TrimAll(rest) == r
    ensures TrimAll([sp + x] + rest) == [x] + r
  {
    TrimOfPadded(sp, x);
    var ps := [sp + x] + rest;
    forall i | 1 <= i < |ps| ensures TrimAll(ps)[i] == r[i - 1] {
      assert ps[i] == rest[i - 1];
    }
  }

  lemma TrimTypedParts(a: string, b: string, c: string, d: string)
    requires IsTrimmed(a) && IsTrimmed(b) && IsTrimmed(c) && IsTrimmed(d)
    ensures TrimAll([a, " " + b, " ", " " + c, " " + d]) == [a, b, "", c, d]
  {
    assert AllSpace(" ") by { SpaceIff(' '); }
    var e: seq<string> := [];
    assert TrimAll(e) == [];
    TrimAllCons(" ", d, e, []);
    var p4 := [" " + d];
    assert [" " + d] + e == p4 && [d] + [] == [d];
    TrimAllCons(" ", c, p4, [d]);
    var p3 := [" " + c] + p4;
    TrimAllCons(" ", "", p3, [c] + [d]);
    var p2 := [" " + ""] + p3;
    TrimAllCons(" ", b, p2, [""] + ([c] + [d]));
    var p1 := [" " + b] + p2;
    TrimAllCons("", a, p1, [b] + ([""] + ([c] + [d])));
    assert "" + a == a && " " + "" == " ";
    FiveAsCons(a, " " + b, " ", " " + c, " " + d);
    FiveAsCons(a, b, "", c, d);
  }

  lemma FilterTypedParts(a: string, b: string, c: string, d: string)
    requires a != "" && b != "" && c != "" && d != ""
    ensures Filter([a, b, "", c, d], NonEmptyText) == [a, b, c, d]
  {
    var e: seq<string> := [];
    assert Filter(e, NonEmptyText) == [];
    var t4 := [d];
    assert [d] + e == t4;
    FilterKeepsHead(d, e, NonEmptyText, []);
    assert [d] + [] == t4;
    var t3 := [c] + t4;
    FilterKeepsHead(c, t4, NonEmptyText, t4);
    FilterDropsHead("", t3, NonEmptyText);
    FilterKeepsHead(b, [""] + t3, NonEmptyText, t3);
    FilterKeepsHead(a, [b] + ([""] + t3), NonEmptyText, [b] + t3);
    FiveAsCons(a, b, "", c, d);
  }

  /** The typed place and its normal form, regrouped to the right. */
  lemma TypedPlaceRegrouped(a: string, b: string, c: string, d: string)
    ensures a + " , " + b + ",," + c + "," + d == a + (" , " + (b + ("," + ("," + (c + ("," + d))))))
    ensures a + ", " + b + ", , " + c + ", " + d == a + (", " + (b + (", " + (", " + (c + (", " + d))))))
    ensures a + ", " + b + ", , " + c + ", " + d == a + "," + (" " + b + "," + (" " + "," + (" " + c + "," + (" " + d))))
  {
  }

  /** Normalising "a , b,,c,d" gives "a, b, , c, d". */
  lemma TypedPlaceNormalizes(a: string, b: string, c: string, d: string)
    requires PlainPart(a) && PlainPart(b) && PlainPart(c) && PlainPart(d)
    ensures Normalize(a + " , " + b + ",," + c + "," + d) == a + ", " + b + ", , " + c + ", " + d
  {
    var input := a + " , " + b + ",," + c + "," + d;
    assert IsTrimmed(input);
    TrimOfPadded("", input);
    assert "" + input == input;
    TypedPlaceCommaRuns(a, b, c, d);
    TypedPlaceSingleSpaced(a, b, c, d);
    CollapseSingleSpaced(a + ", " + b + ", , " + c + ", " + d);
  }

  lemma TypedPlaceCommaRuns(a: string, b: string, c: string, d: string)
    requires PlainPart(a) && PlainPart(b) && PlainPart(c) && PlainPart(d)
    ensures CommaRuns(a + " , " + b + ",," + c + "," + d) == a + ", " + b + ", , " + c + ", " + d
  {
    TypedPlaceRegrouped(a, b, c, d);
    assert AllSpace(" ") by { SpaceIff(' '); }
    var t0 := b + ("," + ("," + (c + ("," + d))));
    CommaRunsPlain(a, " , " + t0);
    assert " , " + t0 == " " + "," + " " + t0;
    CommaRunsComma(" ", " ", t0);
    CommaRunsOfTypedTail(b, c, d);
  }

  /** The comma rewrite of "b,,c,d". */
  lemma CommaRunsOfTypedTail(b: string, c: string, d: string)
    requires PlainPart(b) && PlainPart(c) && PlainPart(d)
    ensures CommaRuns(b + ("," + ("," + (c + ("," + d))))) == b + (", " + (", " + (c + (", " + d))))
  {
    VisibleNotSpace(',');
    var t4 := "," + d;
    var t3 := c + t4;
    var t2 := "," + t3;
    var t1 := "," + t2;
    CommaRunsPlain(b, t1);
    assert t1 == "" + "," + "" + t2 && t2 == "" + "," + "" + t3 && t4 == "" + "," + "" + d;
    CommaRunsComma("", "", t2);
    CommaRunsComma("", "", t3);
    CommaRunsPlain(c, t4);
    CommaRunsComma("", "", d);
    CommaRunsPlain(d, []);
    assert d + [] == d;
  }

  lemma TypedPlaceSingleSpaced(a: string, b: string, c: string, d: string)
    requires PlainPart(a) && PlainPart(b) && PlainPart(c) && PlainPart(d)
    ensures SingleSpaced(a + ", " + b + ", , " + c + ", " + d)
  {
    TypedPlaceRegrouped(a, b, c, d);
    SpaceIff(' ');
    VisibleNotSpace(',');
    assert SingleSpaced(", ");
    var n4 := ", " + d;
    var n3 := c + n4;
    var n2 := ", " + n3;
    var n1 := ", " + n2;
    var n0 := b + n1;
    SingleSpacedJoin(", ", d);
    SingleSpacedJoin(c, n4);
    SingleSpacedJoin(", ", n3);
    SingleSpacedJoin(", ", n2);
    SingleSpacedJoin(b, n1);
    SingleSpacedJoin(", ", n0);
    SingleSpacedJoin(a, ", " + n0);
  }

  /** Splitting "a, b, , c, d" at its commas. */
  lemma TypedPlaceSplits(a: string, b: string, c: string, d: string)
    requires PlainPart(a) && PlainPart(b) && PlainPart(c) && PlainPart(d)
    ensures Split(a + ", " + b + ", , " + c + ", " + d, ",") == [a, " " + b, " ", " " + c, " " + d]
  {
    TypedPlaceSplitsAsCons(a, b, c, d);
    FiveAsCons(a, " " + b, " ", " " + c, " " + d);
  }

  lemma TypedPlaceSplitsAsCons(a: string, b: string, c: string, d: string)
    requires PlainPart(a) && PlainPart(b) && PlainPart(c) && PlainPart(d)
    ensures Split(a + ", " + b + ", , " + c + ", " + d, ",") == [a] + ([" " + b] + ([" "] + ([" " + c] + [" " + d])))
  {
    TypedPlaceRegrouped(a, b, c, d);
    var r4 := " " + d;
    var r3 := " " + c + "," + r4;
    var r2 := " " + "," + r3;
    var r1 := " " + b + "," + r2;
    assert ',' !in " " + b && ',' !in " " + c && ',' !in r4;
    SplitAtComma(a, r1);
    SplitAtComma(" " + b, r2);
    SplitAtComma(" ", r3);
    SplitAtComma(" " + c, r4);
    SplitWithoutSeparator(r4);
  }


  /** White space in front of a text that does not start with white space is exactly
      its leading run. */
  lemma LeadingSpacesOf(sp: string, z: string)
    requires AllSpace(sp) && (z == [] || !IsSpace(z[0]))
    ensures LeadingSpaces(sp + z) == |sp|
  {
    var s := sp + z;
    assert forall k :: 0 <= k < |sp| ==> IsSpace(s[k]);
    assert z != [] ==> !IsSpace(s[|sp|]);
  }

  /** A trimmed text has no white-space tail but the empty one. */
  lemma TrimmedTail(b: string, j: nat)
    requires IsTrimmed(b) && j <= |b|
    ensures AllSpace(b[j..]) ==> j == |b|
  {
    if j < |b| {
      assert b[j..][|b| - j - 1] == b[|b| - 1];
    }
  }

  /** Trimming white space off a trimmed text gives that text. */
  lemma TrimOfPadded(sp: string, b: string)
    requires AllSpace(sp) && IsTrimmed(b)
    ensures Trim(sp + b) == b
  {
    var s := sp + b;
    var r := Trim(s);
    LeadingSpacesOf(sp, b);
    assert s[|sp|..] == b;
    assert |r| <= |b|;
    assert r == b[..|r|];
    assert b[|r|..] == s[|sp| + |r|..];
    TrimmedTail(b, |r|);
  }

  /** A comma-free text ending in a non-space is copied by the comma rewrite. */
  lemma {:induction false} CommaRunsPlain(x: string, y: string)
    requires ',' !in x && (x == [] || !IsSpace(x[|x| - 1]))
    ensures CommaRuns(x + y) == x + CommaRuns(y)
    decreases |x|
  {
    if x == [] {
      assert x + y == y && x + CommaRuns(y) == CommaRuns(y);
    } else {
      var w := PlainLead(x, y);
      if w > 0 {
        CommaRunsPlain(x[w..], y);
        CommaRunsPlainSpaces(x, y, w);
      } else {
        CommaRunsPlain(x[1..], y);
        CommaRunsPlainChar(x, y);
      }
    }
  }

  /** The leading white space of a comma-free text ending in a non-space stops inside it. */
  lemma PlainLead(x: string, y: string) returns (w: nat)
    requires x != [] && ',' !in x && !IsSpace(x[|x| - 1])
    ensures w == LeadingSpaces(x + y) && w < |x| && (x + y)[w] != ','
  {
    var s := x + y;
    w := LeadingSpaces(s);
    assert !IsSpace(s[|x| - 1]);
    assert s[w] == x[w] && x[w] in x;
  }

  lemma CommaRunsPlainSpaces(x: string, y: string, w: nat)
    requires 0 < w < |x| && w == LeadingSpaces(x + y) && (x + y)[w] != ','
    requires CommaRuns(x[w..] + y) == x[w..] + CommaRuns(y)
    ensures CommaRuns(x + y) == x + CommaRuns(y)
  {
    var s := x + y;
    CommaRunsAtSpace(s, w);
    assert s[..w] == x[..w] && s[w..] == x[w..] + y;
    AppendAssoc(x[..w], x[w..], CommaRuns(y));
    assert x[..w] + x[w..] == x;
  }

  lemma CommaRunsPlainChar(x: string, y: string)
    requires 0 < |x| && LeadingSpaces(x + y) == 0 && x[0] != ','
    requires CommaRuns(x[1..] + y) == x[1..] + CommaRuns(y)
    ensures CommaRuns(x + y) == x + CommaRuns(y)
  {
    var s := x + y;
    CommaRunsAtChar(s);
    assert s[1..] == x[1..] + y;
    AppendAssoc([x[0]], x[1..], CommaRuns(y));
    assert [x[0]] + x[1..] == x;
  }

  /** A comma with white-space runs on both sides becomes ", ". */
  lemma CommaRunsComma(sp: string, sp2: string, y: string)
    requires AllSpace(sp) && AllSpace(sp2) && (y == [] || !IsSpace(y[0]))
    ensures CommaRuns(sp + "," + sp2 + y) == ", " + CommaRuns(y)
  {
    VisibleNotSpace(',');
    var after := sp2 + y;
    var s := sp + ([','] + after);
    assert sp + "," + sp2 + y == s;
    LeadingSpacesOf(sp, [','] + after);
    assert s[|sp|] == ',';
    CommaRunsAtComma(s, |sp|);
    assert s[|sp| + 1..] == after;
    LeadingSpacesOf(sp2, y);
    SkipSpacesDrops(after);
    assert after[|sp2|..] == y;
  }

  /** Text with no white space but single plain spaces is left alone by collapsing. */
  lemma {:induction false} CollapseSingleSpaced(s: string)
    requires SingleSpaced(s)
    ensures Collapse(s) == s
    decreases |s|
  {
    if s != [] {
      SingleSpacedSuffix(s, 1);
      CollapseSingleSpaced(s[1..]);
      if IsSpace(s[0]) {
        assert LeadingSpaces(s) == 1;
        assert s == " " + s[1..];
      } else {
        assert s == [s[0]] + s[1..];
      }
    }
  }

  lemma SingleSpacedSuffix(s: string, k: nat)
    requires SingleSpaced(s) && k <= |s|
    ensures SingleSpaced(s[k..])
  {
    forall j | 0 <= j < |s| - k && IsSpace(s[k..][j])
      ensures s[k..][j] == ' ' && (j + 1 < |s| - k ==> !IsSpace(s[k..][j + 1]))
    {
      assert s[k..][j] == s[k + j];
    }
  }

  lemma SingleSpacedJoin(u: string, x: string)
    requires SingleSpaced(u) && SingleSpaced(x)
    requires u != [] && x != [] ==> !IsSpace(u[|u| - 1]) || !IsSpace(x[0])
    ensures SingleSpaced(u + x)
  {
    var t := u + x;
    forall i | 0 <= i < |t| && IsSpace(t[i]) ensures t[i] == ' ' && (i + 1 < |t| ==> !IsSpace(t[i + 1])) {
      if i >= |u| {
        assert t[i] == x[i - |u|];
      } else if i + 1 < |u| {
        assert t[i] == u[i] && t[i + 1] == u[i + 1];
      }
    }
  }

  /** `validateCity(city)` */
  function ValidateCity(city: string): (r: Result<()>)
    ensures r.Ok? <==> |city| >= 2
    ensures r.Fail? ==> r.message == "Type a real place name (ex: \"Seattle\" or \"Seattle, WA\")."
  {
    if city == "" || |city| < 2 then Fail("Type a real place name (ex: \"Seattle\" or \"Seattle, WA\").")
    else Ok(())
  }

  /** `isTwoLetterCode(s)`: exactly two ASCII letters. */
  predicate IsTwoLetterCode(s: string) {
    |s| == 2 && IsAsciiLetter(s[0]) && IsAsciiLetter(s[1])
  }

  // ---------------------------------------------------------------- deriveGeoHints

  /** `US_STATE`: postal code to state name, with the District of Columbia. */
  const UsStates: map<string, string> := map[
    "AL" := "Alabama", "AK" := "Alaska", "AZ" := "Arizona", "AR" := "Arkansas",
    "CA" := "California", "CO" := "Colorado", "CT" := "Connecticut", "DE" := "Delaware",
    "FL" := "Florida", "GA" := "Georgia", "HI" := "Hawaii", "ID" := "Idaho",
    "IL" := "Illinois", "IN" := "Indiana", "IA" := "Iowa", "KS" := "Kansas",
    "KY" := "Kentucky", "LA" := "Louisiana", "ME" := "Maine", "MD" := "Maryland",
    "MA" := "Massachusetts", "MI" := "Michigan", "MN" := "Minnesota",
    "MS" := "Mississippi", "MO" := "Missouri", "MT" := "Montana", "NE" := "Nebraska",
    "NV" := "Nevada", "NH" := "New Hampshire", "NJ" := "New Jersey",
    "NM" := "New Mexico", "NY" := "New York", "NC" := "North Carolina",
    "ND" := "North Dakota", "OH" := "Ohio", "OK" := "Oklahoma", "OR" := "Oregon",
    "PA" := "Pennsylvania", "RI" := "Rhode Island", "SC" := "South Carolina",
    "SD" := "South Dakota", "TN" := "Tennessee", "TX" := "Texas", "UT" := "Utah",
    "VT" := "Vermont", "VA" := "Virginia", "WA" := "Washington",
    "WV" := "West Virginia", "WI" := "Wisconsin", "WY" := "Wyoming",
    "DC" := "District of Columbia"]

  datatype GeoHints = GeoHints(countryCode: string, stateFull: string)

  /** A region the state table knows, upper-cased. */
  predicate KnownState(regionOrState: string) {
    IsTwoLetterCode(regionOrState) && ToUpper(regionOrState) in UsStates
    && UsStates[ToUpper(regionOrState)] != ""
  }

  /** `deriveGeoHints({ regionOrState, country })` */
  function DeriveGeoHints(regionOrState: string, country: string): (h: GeoHints)
    ensures IsTwoLetterCode(country) ==> h == GeoHints(ToUpper(country), "")
    ensures !IsTwoLetterCode(country) && KnownState(regionOrState) ==>
              h == GeoHints("US", UsStates[ToUpper(regionOrState)])
    ensures !IsTwoLetterCode(country) && !KnownState(regionOrState) ==> h == GeoHints("", "")
    ensures h.stateFull != "" ==> h.countryCode == "US" && h.stateFull in UsStates.Values
    ensures h.countryCode == "" || (|h.countryCode| == 2 && forall c :: c in h.countryCode ==> 'A' <= c <= 'Z')
  {
    if country != "" && IsTwoLetterCode(country) then GeoHints(ToUpper(country), "")
    else if regionOrState != "" && IsTwoLetterCode(regionOrState) then
      var st := ToUpper(regionOrState);
      if st in UsStates && UsStates[st] != "" then GeoHints("US", UsStates[st]) else GeoHints("", "")
    else GeoHints("", "")
  }

  /** `buildGeocodeUrl(city, countryCode)`: the country filter is added only for a non-empty code. */
  function BuildGeocodeUrl(city: string, countryCode: string): string {
    "https://geocoding-api.open-meteo.com/v1/search?name=" + EncodeURIComponent(city)
    + "&count=10&language=en&format=json"
    + (if countryCode != "" then "&countryCode=" + EncodeURIComponent(countryCode) else "")
  }

  // ---------------------------------------------------------------- candidates

  /** One entry of the geocoder's `results` array. */
  datatype Candidate = Candidate(name: string, admin1: Option<string>, country: string, countryCode: string,
                                 latitude: real, longitude: real, population: Option<int>,
                                 timezone: Option<string>)

  /** The `${latitude},${longitude}` key that identifies a place. */
  function KeyOf(c: Candidate): (real, real) {
    (c.latitude, c.longitude)
  }

  function KeysOf(s: seq<Candidate>): set<(real, real)> {
    if s == [] then {} else {KeyOf(s[0])} + KeysOf(s[1..])
  }

  /** A key is among the keys of `s` exactly when some candidate of `s` has it. */
  lemma {:induction false} KeysOfMember(s: seq<Candidate>, k: (real, real))
    ensures k in KeysOf(s) <==> exists j :: 0 <= j < |s| && KeyOf(s[j]) == k
  {
    if s != [] {
      KeysOfMember(s[1..], k);
      if exists j :: 0 <= j < |s| && KeyOf(s[j]) == k {
        var j :| 0 <= j < |s| && KeyOf(s[j]) == k;
        if j > 0 { assert KeyOf(s[1..][j - 1]) == k; }
      }
      if exists j :: 0 <= j < |s| - 1 && KeyOf(s[1..][j]) == k {
        var j :| 0 <= j < |s| - 1 && KeyOf(s[1..][j]) == k;
        assert KeyOf(s[j + 1]) == k;
      }
    }
  }

  predicate DistinctKeys(s: seq<Candidate>) {
    forall i, j :: 0 <= i < j < |s| ==> KeyOf(s[i]) != KeyOf(s[j])
  }

  lemma KeysOfCons(x: Candidate, s: seq<Candidate>)
    ensures KeysOf([x] + s) == {KeyOf(x)} + KeysOf(s)
  {
    assert ([x] + s)[1..] == s;
  }

  /** The candidates of `s` whose key is neither in `seen` nor on an earlier candidate. */
  function Dedupe(s: seq<Candidate>, seen: set<(real, real)>): (r: seq<Candidate>)
    ensures IsSubseq(r, s)
    ensures forall x :: x in r ==> KeyOf(x) !in seen
    ensures KeysOf(r) == KeysOf(s) - seen
  {
    if s == [] then []
    else
      var k := KeyOf(s[0]);
      var rest := s[1..];
      KeysOfCons(s[0], rest);
      assert s == [s[0]] + rest;
      if k in seen then Dedupe(rest, seen)
      else
        var tail := Dedupe(rest, seen + {k});
        KeysOfCons(s[0], tail);
        assert forall x :: x in [s[0]] + tail ==> x == s[0] || x in tail;
        [s[0]] + tail
  }

  /** No two candidates `Dedupe` keeps share a key. */
  lemma {:induction false} DedupeDistinct(s: seq<Candidate>, seen: set<(real, real)>)
    ensures DistinctKeys(Dedupe(s, seen))
    decreases |s|
  {
    if s != [] {
      var k := KeyOf(s[0]);
      if k in seen {
        DedupeDistinct(s[1..], seen);
      } else {
        var tail := Dedupe(s[1..], seen + {k});
        DedupeDistinct(s[1..], seen + {k});
        var r := [s[0]] + tail;
        assert r == Dedupe(s, seen);
        forall i, j | 0 <= i < j < |r| ensures KeyOf(r[i]) != KeyOf(r[j]) {
          assert r[j] == tail[j - 1];
          assert tail[j - 1] in tail;
          if i > 0 {
            assert r[i] == tail[i - 1];
          }
        }
      }
    }
  }

  /** `i` is the first position of its key in `s`. */
  predicate FirstOfItsKey(s: seq<Candidate>, i: nat)
    requires i < |s|
  {
    forall j :: 0 <= j < i ==> KeyOf(s[j]) != KeyOf(s[i])
  }

  /** Reference: the candidates among the first `n` that are first of their key, in order. */
  function FirstOccurrences(s: seq<Candidate>, n: nat): seq<Candidate>
    requires n <= |s|
  {
    if n == 0 then [] else FirstOccurrences(s, n - 1) + (if FirstOfItsKey(s, n - 1) then [s[n - 1]] else [])
  }

  lemma KeyEarlier(s: seq<Candidate>, i: nat)
    requires i < |s|
    ensures KeyOf(s[i]) in KeysOf(s[..i]) <==> !FirstOfItsKey(s, i)
  {
    KeysOfMember(s[..i], KeyOf(s[i]));
    if KeyOf(s[i]) in KeysOf(s[..i]) {
      var j :| 0 <= j < i && KeyOf(s[..i][j]) == KeyOf(s[i]);
      assert KeyOf(s[j]) == KeyOf(s[i]);
    }
    if !FirstOfItsKey(s, i) {
      var j :| 0 <= j < i && KeyOf(s[j]) == KeyOf(s[i]);
      assert KeyOf(s[..i][j]) == KeyOf(s[i]);
    }
  }

  lemma {:induction false} DedupeFrom(s: seq<Candidate>, i: nat)
    requires i <= |s|
    ensures FirstOccurrences(s, i) + Dedupe(s[i..], KeysOf(s[..i])) == FirstOccurrences(s, |s|)
    decreases |s| - i
  {
    if i < |s| {
      DedupeStep(s, i);
      DedupeFrom(s, i + 1);
    } else {
      assert s[i..] == [];
      assert s[..i] == s;
    }
  }

  /** Moving one candidate from the part still to be deduplicated to the part already done. */
  lemma DedupeStep(s: seq<Candidate>, i: nat)
    requires i < |s|
    ensures FirstOccurrences(s, i) + Dedupe(s[i..], KeysOf(s[..i]))
         == FirstOccurrences(s, i + 1) + Dedupe(s[i + 1..], KeysOf(s[..i + 1]))
  {
    var x := s[i];
    var seen := KeysOf(s[..i]);
    var kept: seq<Candidate> := if KeyOf(x) in seen then [] else [x];
    var d := Dedupe(s[i + 1..], seen + {KeyOf(x)});
    assert s[..i + 1] == s[..i] + [x];
    KeysOfCons2(s[..i], x);
    FirstOccurrencesStep(s, i);
    DedupeUnfold(s[i..], seen);
    assert s[i..][1..] == s[i + 1..];
    assert Dedupe(s[i..], seen) == kept + d;
    AppendAssoc(FirstOccurrences(s, i), kept, d);
  }

  lemma FirstOccurrencesStep(s: seq<Candidate>, i: nat)
    requires i < |s|
    ensures FirstOccurrences(s, i + 1)
         == FirstOccurrences(s, i) + (if KeyOf(s[i]) in KeysOf(s[..i]) then [] else [s[i]])
  {
    KeyEarlier(s, i);
  }

  lemma DedupeUnfold(s: seq<Candidate>, seen: set<(real, real)>)
    requires s != []
    ensures Dedupe(s, seen) == (if KeyOf(s[0]) in seen then [] else [s[0]]) + Dedupe(s[1..], seen + {KeyOf(s[0])})
  {
    if KeyOf(s[0]) in seen {
      assert seen + {KeyOf(s[0])} == seen;
    }
  }

  lemma {:induction false} KeysOfCons2(s: seq<Candidate>, x: Candidate)
    ensures KeysOf(s + [x]) == KeysOf(s) + {KeyOf(x)}
  {
    if s == [] {
      assert s + [x] == [x];
    } else {
      assert (s + [x])[1..] == s[1..] + [x];
      KeysOfCons2(s[1..], x);
    }
  }

  /** `dedupeByLatLon` keeps exactly the first candidate of each (latitude, longitude)
      pair, in input order. */
  lemma DedupeKeepsFirstOccurrences(s: seq<Candidate>)
    ensures Dedupe(s, {}) == FirstOccurrences(s, |s|)
  {
    DedupeFrom(s, 0);
    assert s[..0] == [];
    assert KeysOf(s[..0]) == {};
    assert s[0..] == s;
    assert FirstOccurrences(s, 0) == [];
  }

  /** `dedupeByLatLon(results)`, with its `seen` set and `out` array. */
  /** One turn of the `seen` loop: the head is kept exactly when its key is new. */
  lemma DedupeLoopStep(out: seq<Candidate>, rest: seq<Candidate>, seen: set<(real, real)>)
    requires rest != []
    ensures var x := rest[0];
      out + Dedupe(rest, seen)
      == (if KeyOf(x) in seen then out else out + [x]) + Dedupe(rest[1..], seen + {KeyOf(x)})
  {
    var x := rest[0];
    var kept: seq<Candidate> := if KeyOf(x) in seen then [] else [x];
    DedupeUnfold(rest, seen);
    AppendAssoc(out, kept, Dedupe(rest[1..], seen + {KeyOf(x)}));
    assert out + [] == out;
  }

  method DedupeByLatLon(results: seq<Candidate>) returns (out: seq<Candidate>)
    ensures out == Dedupe(results, {})
  {
    var seen: set<(real, real)> := {};
    out := [];
    var i := 0;
    while i < |results|
      invariant 0 <= i <= |results|
      invariant out + Dedupe(results[i..], seen) == Dedupe(results, {})
    {
      var r := results[i];
      assert results[i..][1..] == results[i + 1..];
      DedupeLoopStep(out, results[i..], seen);
      if KeyOf(r) !in seen {
        seen := seen + {KeyOf(r)};
        out := out + [r];
      }
      i := i + 1;
    }
    assert results[i..] == [];
  }

  // ---------------------------------------------------------------- admin1 filters

  predicate Admin1Is(c: Candidate, target: string) {
    ToLower(c.admin1.GetOr("")) == target
  }

  predicate Admin1Has(c: Candidate, needle: string) {
    Contains(ToLower(c.admin1.GetOr("")), needle)
  }

  /** `filterByAdmin1Exact(results, admin1Full)`: the candidates whose admin1 equals
      the target, ignoring case; the input itself when the target is empty or nothing matches. */
  function FilterByAdmin1Exact(results: seq<Candidate>, admin1Full: string): (r: seq<Candidate>)
    ensures ToLower(admin1Full) == "" ==> r == results
    ensures ToLower(admin1Full) != "" && (exists x :: x in results && Admin1Is(x, ToLower(admin1Full))) ==>
              forall x :: x in r <==> x in results && Admin1Is(x, ToLower(admin1Full))
    ensures ToLower(admin1Full) != "" && !(exists x :: x in results && Admin1Is(x, ToLower(admin1Full))) ==>
              r == results
    ensures IsSubseq(r, results)
    ensures results != [] ==> r != []
  {
    var target := ToLower(admin1Full);
    if target == "" then SubseqRefl(results); results
    else
      var filtered := Filter(results, (c: Candidate) => Admin1Is(c, target));
      if |filtered| > 0 then assert filtered[0] in filtered; filtered
      else
        assert forall x :: x in results ==> !Admin1Is(x, target);
        SubseqRefl(results);
        results
  }

  /** `filterByAdmin1Includes(results, regionOrState)`: the candidates whose admin1
      contains the trimmed region, ignoring case; the input itself when the region is
      two characters or fewer or nothing matches. */
  function FilterByAdmin1Includes(results: seq<Candidate>, regionOrState: string): (r: seq<Candidate>)
    ensures |Trim(regionOrState)| <= 2 ==> r == results
    ensures |Trim(regionOrState)| > 2 && (exists x :: x in results && Admin1Has(x, ToLower(Trim(regionOrState)))) ==>
              forall x :: x in r <==> x in results && Admin1Has(x, ToLower(Trim(regionOrState)))
    ensures |Trim(regionOrState)| > 2 && !(exists x :: x in results && Admin1Has(x, ToLower(Trim(regionOrState)))) ==>
              r == results
    ensures IsSubseq(r, results)
    ensures results != [] ==> r != []
  {
    var q := Trim(regionOrState);
    if q == "" || |q| <= 2 then SubseqRefl(results); results
    else
      var ql := ToLower(q);
      var filtered := Filter(results, (c: Candidate) => Admin1Has(c, ql));
      if |filtered| > 0 then assert filtered[0] in filtered; filtered
      else
        assert forall x :: x in results ==> !Admin1Has(x, ql);
        SubseqRefl(results);
        results
  }

  // ---------------------------------------------------------------- chooseMostPopulated

  /** A candidate's population, missing counting as 0. */
  function Population(c: Candidate): int {
    c.population.GetOr(0)
  }

  /** The position of the earliest candidate with the largest population. */
  function ArgMaxPopulation(s: seq<Candidate>): (i: nat)
    requires |s| > 0
    ensures i < |s|
    ensures forall j :: 0 <= j < |s| ==> Population(s[j]) <= Population(s[i])
    ensures forall j :: 0 <= j < i ==> Population(s[j]) < Population(s[i])
  {
    if |s| == 1 then 0
    else
      var k := ArgMaxPopulation(s[..|s| - 1]);
      assert forall j :: 0 <= j < |s| - 1 ==> s[..|s| - 1][j] == s[j];
      if Population(s[|s| - 1]) > Population(s[k]) then |s| - 1 else k
  }

  /** `chooseMostPopulated(results)`: what a stable sort by descending population puts first. */
  function ChooseMostPopulated(results: seq<Candidate>): (r: Option<Candidate>)
    ensures r.None? <==> results == []
    ensures r.Some? ==> r.value in results
    ensures r.Some? ==> forall x :: x in results ==> Population(x) <= Population(r.value)
    ensures r.Some? ==> exists i :: 0 <= i < |results| && results[i] == r.value
                          && forall j :: 0 <= j < i ==> Population(results[j]) < Population(r.value)
  {
    if results == [] then None
    else
      var i := ArgMaxPopulation(results);
      Some(results[i])
  }

  /** `formatChosenLocation(chosen)`: "name[, admin1], country (code)". */
  function FormatChosenLocation(c: Candidate): (s: string)
    ensures |c.name| <= |s| && s[..|c.name|] == c.name
    ensures var tail := ", " + c.country + " (" + c.countryCode + ")";
      |tail| <= |s| && s[|s| - |tail|..] == tail
    ensures (c.admin1.Some? && c.admin1.value != "") ==>
              s == c.name + ", " + c.admin1.value + ", " + c.country + " (" + c.countryCode + ")"
    ensures !(c.admin1.Some? && c.admin1.value != "") ==>
              s == c.name + ", " + c.country + " (" + c.countryCode + ")"
  {
    var tail := ", " + c.country + " (" + c.countryCode + ")";
    if c.admin1.Some? && c.admin1.value != "" then
      LabelParts(c.name, ", " + c.admin1.value, c.country, c.countryCode);
      c.name + ", " + c.admin1.value + ", " + c.country + " (" + c.countryCode + ")"
    else
      LabelParts(c.name, "", c.country, c.countryCode);
      c.name + ", " + c.country + " (" + c.countryCode + ")"
  }

  /** The label as name, optional region and the country tail. */
  lemma LabelParts(name: string, region: string, country: string, code: string)
    ensures var tail := ", " + country + " (" + code + ")";
      var s := name + region + tail;
      |name| <= |s| && s[..|name|] == name && |tail| <= |s| && s[|s| - |tail|..] == tail
    ensures region == "" ==> name + region + ", " + country + " (" + code + ")" == name + ", " + country + " (" + code + ")"
    ensures name + region + ", " + country + " (" + code + ")" == name + region + (", " + country + " (" + code + ")")
  {
    var tail := ", " + country + " (" + code + ")";
    assert name + region + tail == name + (region + tail);
    if region == "" {
      assert name + region == name;
    }
  }

  /** What `geocodePlace` does with the geocoder's candidates: dedupe, narrow to the
      state, then (without a state) to the region, then pick the most populated. */
  function Disambiguate(results: seq<Candidate>, parts: PlaceParts, hints: GeoHints): Option<Candidate> {
    var unique := Dedupe(results, {});
    var byState := FilterByAdmin1Exact(unique, hints.stateFull);
    var narrowed := if hints.stateFull == "" then FilterByAdmin1Includes(byState, parts.regionOrState) else byState;
    ChooseMostPopulated(narrowed)
  }

  /** Non-empty geocoder results always leave a candidate to choose, and it is one of them. */
  lemma DisambiguateNonEmpty(results: seq<Candidate>, parts: PlaceParts, hints: GeoHints)
    requires results != []
    ensures Disambiguate(results, parts, hints).Some?
    ensures Disambiguate(results, parts, hints).value in results
  {
    var unique := Dedupe(results, {});
    KeysOfMember(results, KeyOf(results[0]));
    assert unique != [];
    var byState := FilterByAdmin1Exact(unique, hints.stateFull);
    var narrowed := if hints.stateFull == "" then FilterByAdmin1Includes(byState, parts.regionOrState) else byState;
    var c := Disambiguate(results, parts, hints).value;
    SubseqRefl(byState);
    SubseqIn(narrowed, byState, c);
    SubseqIn(byState, unique, c);
    SubseqIn(unique, results, c);
  }
}
