/** The Category schema of models/Category.js: the name bound and the pre-save hook
    that derives the slug from the name (lower-case, each run of white space to one
    '-', then every character outside `[A-Za-z0-9_-]` dropped). */
module Categories {

  /** The characters JavaScript's `\s` matches. */
  predicate IsSpace(c: char) {
    || c == ' ' || c == '\t' || c == '\n' || c == '\U{B}' || c == '\U{C}' || c == '\r'
    || c == '\U{A0}' || c == '\U{1680}' || ('\U{2000}' <= c <= '\U{200A}')
    || c == '\U{2028}' || c == '\U{2029}' || c == '\U{202F}' || c == '\U{205F}'
    || c == '\U{3000}' || c == '\U{FEFF}'
  }

  predicate IsUpper(c: char) { 'A' <= c <= 'Z' }

  predicate IsAsciiAlnum(c: char) { 'a' <= c <= 'z' || 'A' <= c <= 'Z' || '0' <= c <= '9' }

  /** The characters `[\w\-]` keeps. */
  predicate IsSlugChar(c: char) { IsAsciiAlnum(c) || c == '_' || c == '-' }

  function LowerChar(c: char): (r: char)
    ensures !IsUpper(r)
    ensures IsAsciiAlnum(r) <==> IsAsciiAlnum(c)
    ensures !IsUpper(c) ==> r == c
  {
    if IsUpper(c) then (c as int + 32) as char else c
  }

  /** `toLowerCase`, on the ASCII letters. */
  function Lower(s: string): (r: string)
    ensures |r| == |s|
    ensures forall i :: 0 <= i < |s| ==> r[i] == LowerChar(s[i])
  {
    if s == [] then [] else [LowerChar(s[0])] + Lower(s[1..])
  }

  /** Drops the run of white space at the front of `s`. */
  function SkipSpaces(s: string): (r: string)
    ensures |r| <= |s| && r == s[|s| - |r|..]
    ensures forall i :: 0 <= i < |s| - |r| ==> IsSpace(s[i])
    ensures r == [] || !IsSpace(r[0])
  {
    if s != [] && IsSpace(s[0]) then SkipSpaces(s[1..]) else s
  }

  /** `replace(/\s+/g, '-')`: every maximal run of white space becomes one '-'. */
  function CollapseSpaces(s: string): (r: string)
    ensures forall i :: 0 <= i < |r| ==> !IsSpace(r[i])
    ensures forall i :: 0 <= i < |r| ==> r[i] == '-' || r[i] in s
    decreases |s|
  {
    if s == [] then []
    else if IsSpace(s[0]) then
      var rest := SkipSpaces(s);
      assert forall c :: c in rest ==> c in s;
      "-" + CollapseSpaces(rest)
    else
      [s[0]] + CollapseSpaces(s[1..])
  }

  /** `replace(/[^\w\-]+/g, '')`: keeps the slug characters, in order. */
  function KeepSlugChars(s: string): (r: string)
    ensures forall i :: 0 <= i < |r| ==> IsSlugChar(r[i]) && r[i] in s
    ensures |r| <= |s|
    ensures |s| == 1 ==> r == (if IsSlugChar(s[0]) then s else [])
  {
    if s == [] then []
    else if IsSlugChar(s[0]) then [s[0]] + KeepSlugChars(s[1..])
    else KeepSlugChars(s[1..])
  }

  /** The slug the pre-save hook derives from a category name. */
  function Slug(name: string): (r: string)
    ensures forall i :: 0 <= i < |r| ==> IsSlugChar(r[i]) && !IsUpper(r[i])
  {
    var lowered := Lower(name);
    var dashed := CollapseSpaces(lowered);
    assert forall c :: c in dashed ==> !IsUpper(c);
    KeepSlugChars(dashed)
  }

  lemma {:induction false} LowerIdentity(s: string)
    requires forall i :: 0 <= i < |s| ==> !IsUpper(s[i])
    ensures Lower(s) == s
  {
  }

  lemma {:induction false} CollapseIdentity(s: string)
    requires forall i :: 0 <= i < |s| ==> !IsSpace(s[i])
    ensures CollapseSpaces(s) == s
  {
    if s != [] {
      CollapseIdentity(s[1..]);
    }
  }

  lemma {:induction false} KeepIdentity(s: string)
    requires forall i :: 0 <= i < |s| ==> IsSlugChar(s[i])
    ensures KeepSlugChars(s) == s
  {
    if s != [] {
      KeepIdentity(s[1..]);
    }
  }

  /** The filter works character by character: over a concatenation it is the
      concatenation of the filtered parts. With the one-character case of its
      contract, this says it keeps exactly the slug characters, in order. */
  lemma {:induction false} KeepSlugCharsConcat(a: string, b: string)
    ensures KeepSlugChars(a + b) == KeepSlugChars(a) + KeepSlugChars(b)
  {
    if a == [] {
      assert a + b == b;
    } else {
      assert (a + b)[0] == a[0];
      assert (a + b)[1..] == a[1..] + b;
      KeepSlugCharsConcat(a[1..], b);
    }
  }

  /** Deriving a slug from a slug gives it back. */
  lemma {:induction false} SlugIdempotent(name: string)
    ensures Slug(Slug(name)) == Slug(name)
  {
    var s := Slug(name);
    LowerIdentity(s);
    CollapseIdentity(s);
    KeepIdentity(s);
  }

  lemma {:induction false} SkipSpacesRun(run: string, t: string)
    requires forall i :: 0 <= i < |run| ==> IsSpace(run[i])
    requires t == [] || !IsSpace(t[0])
    ensures SkipSpaces(run + t) == t
  {
    if run == [] {
      assert run + t == t;
    } else {
      assert (run + t)[1..] == run[1..] + t;
      SkipSpacesRun(run[1..], t);
    }
  }

  /** A maximal run of white space at the front becomes a single '-'. */
  lemma {:induction false} CollapseLeadingRun(run: string, t: string)
    requires run != [] && forall i :: 0 <= i < |run| ==> IsSpace(run[i])
    requires t == [] || !IsSpace(t[0])
    ensures CollapseSpaces(run + t) == "-" + CollapseSpaces(t)
  {
    assert (run + t)[0] == run[0];
    SkipSpacesRun(run, t);
  }

  /** A maximal run of white space between two pieces of text becomes a single '-'. */
  lemma {:induction false} CollapseRun(w: string, run: string, t: string)
    requires forall i :: 0 <= i < |w| ==> !IsSpace(w[i])
    requires run != [] && forall i :: 0 <= i < |run| ==> IsSpace(run[i])
    requires t == [] || !IsSpace(t[0])
    ensures CollapseSpaces(w + run + t) == CollapseSpaces(w) + "-" + CollapseSpaces(t)
  {
    if w == [] {
      assert w + run + t == run + t;
      CollapseLeadingRun(run, t);
    } else {
      var x := w + run + t;
      assert x[0] == w[0] && !IsSpace(x[0]);
      assert x[1..] == w[1..] + run + t;
      CollapseRun(w[1..], run, t);
      assert CollapseSpaces(x) == [w[0]] + CollapseSpaces(x[1..]);
      assert CollapseSpaces(w) == [w[0]] + CollapseSpaces(w[1..]);
    }
  }

  /** Two words of slug characters separated by a run of white space give the two
      words lower-cased and joined by a single '-'. */
  lemma {:induction false} SlugJoinsWords(w1: string, run: string, w2: string)
    requires forall i :: 0 <= i < |w1| ==> IsSlugChar(w1[i])
    requires forall i :: 0 <= i < |w2| ==> IsSlugChar(w2[i])
    requires run != [] && forall i :: 0 <= i < |run| ==> IsSpace(run[i])
    ensures Slug(w1 + run + w2) == Lower(w1) + "-" + Lower(w2)
  {
    var l1, l2 := Lower(w1), Lower(w2);
    LowerAroundRun(w1, run, w2);
    LowerSlugChars(w1);
    LowerSlugChars(w2);
    CollapseIdentity(l1);
    CollapseIdentity(l2);
    CollapseRun(l1, run, l2);
    KeepIdentity(l1 + "-" + l2);
  }

  lemma {:induction false} LowerAroundRun(w1: string, run: string, w2: string)
    requires forall i :: 0 <= i < |run| ==> IsSpace(run[i])
    ensures Lower(w1 + run + w2) == Lower(w1) + run + Lower(w2)
  {
    forall i | 0 <= i < |run| ensures !IsUpper(run[i]) {
      SpaceNotUpper(run[i]);
    }
    LowerIdentity(run);
    LowerConcat(w1 + run, w2);
    LowerConcat(w1, run);
  }

  lemma {:induction false} SpaceNotUpper(c: char)
    requires IsSpace(c)
    ensures !IsUpper(c)
  {
  }

  lemma {:induction false} LowerConcat(a: string, b: string)
    ensures Lower(a + b) == Lower(a) + Lower(b)
  {
    var x, y := Lower(a + b), Lower(a) + Lower(b);
    assert forall i :: 0 <= i < |x| ==> x[i] == y[i];
  }

  lemma {:induction false} LowerSlugChars(w: string)
    requires forall i :: 0 <= i < |w| ==> IsSlugChar(w[i])
    ensures forall i :: 0 <= i < |Lower(w)| ==> IsSlugChar(Lower(w)[i]) && !IsSpace(Lower(w)[i])
  {
  }

  /** The ASCII letters and digits of a string, in order. */
  function Alnums(s: string): string {
    if s == [] then []
    else if IsAsciiAlnum(s[0]) then [s[0]] + Alnums(s[1..])
    else Alnums(s[1..])
  }

  lemma {:induction false} AlnumsOfLower(s: string)
    ensures Alnums(Lower(s)) == Lower(Alnums(s))
  {
    if s != [] {
      assert Lower(s)[1..] == Lower(s[1..]);
      AlnumsOfLower(s[1..]);
    }
  }

  lemma {:induction false} AlnumsOfSkip(s: string)
    ensures Alnums(SkipSpaces(s)) == Alnums(s)
  {
    if s != [] && IsSpace(s[0]) {
      AlnumsOfSkip(s[1..]);
    }
  }

  lemma {:induction false} AlnumsOfCollapse(s: string)
    ensures Alnums(CollapseSpaces(s)) == Alnums(s)
    decreases |s|
  {
    if s == [] {
    } else if IsSpace(s[0]) {
      var rest := SkipSpaces(s);
      AlnumsOfCollapse(rest);
      AlnumsOfSkip(s);
      assert ("-" + CollapseSpaces(rest))[1..] == CollapseSpaces(rest);
      assert Alnums(s) == Alnums(s[1..]);
      AlnumsOfSkip(s[1..]);
    } else {
      assert ([s[0]] + CollapseSpaces(s[1..]))[1..] == CollapseSpaces(s[1..]);
      AlnumsOfCollapse(s[1..]);
    }
  }

  lemma {:induction false} AlnumsOfKeep(s: string)
    ensures Alnums(KeepSlugChars(s)) == Alnums(s)
  {
    if s != [] {
      AlnumsOfKeep(s[1..]);
      if IsSlugChar(s[0]) {
        assert ([s[0]] + KeepSlugChars(s[1..]))[1..] == KeepSlugChars(s[1..]);
      }
    }
  }

  /** The slug keeps every ASCII letter and digit of the name, lower-cased, in order. */
  lemma {:induction false} SlugKeepsAlnums(name: string)
    ensures Alnums(Slug(name)) == Lower(Alnums(name))
  {
    AlnumsOfKeep(CollapseSpaces(Lower(name)));
    AlnumsOfCollapse(Lower(name));
    AlnumsOfLower(name);
  }

  datatype Category = Category(name: string, slug: string, description: string, image: string, isActive: bool)

  /** The pre-save hook: the slug is re-derived from the name only when the name was
      modified; nothing else changes. */
  function PreSave(c: Category, nameModified: bool): (r: Category)
    ensures r.(slug := c.slug) == c
    ensures nameModified ==> r.slug == Slug(c.name)
    ensures !nameModified ==> r == c
  {
    if nameModified then c.(slug := Slug(c.name)) else c
  }
}
