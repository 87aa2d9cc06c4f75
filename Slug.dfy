/**
 * Slug derivation of the blog editor:
 *   title.toLowerCase().replace(/[^a-z0-9]+/g, '-').replace(/(^-|-$)/g, '')
 * Each stage is its own function; the lemmas show the result is a
 * well-formed slug that keeps the title's letters and digits in order,
 * and that deriving a slug twice changes nothing.
 */
module Slug {

  /** `toLowerCase` on one character, for the ASCII range: A-Z to a-z. */
  function LowerChar(c: char): (r: char)
    ensures 'A' <= c <= 'Z' ==> 'a' <= r <= 'z' && r as int == c as int + 32
    ensures !('A' <= c <= 'Z') ==> r == c
  {
    if 'A' <= c <= 'Z' then (c as int + 32) as char else c
  }

  function ToLower(s: string): (r: string)
    ensures |r| == |s|
    ensures forall i :: 0 <= i < |s| ==> r[i] == LowerChar(s[i])
  {
    seq(|s|, i requires 0 <= i < |s| => LowerChar(s[i]))
  }

  /** The character class `[a-z0-9]`. */
  predicate IsAlnum(c: char)
  {
    'a' <= c <= 'z' || '0' <= c <= '9'
  }

  predicate IsSlugChar(c: char)
  {
    IsAlnum(c) || c == '-'
  }

  /** The letters and digits of `s`, in order. */
  function Alnums(s: string): (r: string)
    ensures |r| <= |s|
    ensures forall i :: 0 <= i < |r| ==> IsAlnum(r[i])
  {
    if s == [] then []
    else (if IsAlnum(s[0]) then [s[0]] else []) + Alnums(s[1..])
  }

  lemma {:induction false} AlnumsAppend(a: string, b: string)
    ensures Alnums(a + b) == Alnums(a) + Alnums(b)
  {
    if a == [] {
      assert a + b == b;
    } else {
      assert (a + b)[1..] == a[1..] + b;
      AlnumsAppend(a[1..], b);
    }
  }

  /** Drops the leading run of characters outside `[a-z0-9]`. */
  function DropRun(s: string): (r: string)
    ensures |r| <= |s|
  {
    if s == [] || IsAlnum(s[0]) then s else DropRun(s[1..])
  }

  /** What `DropRun` removes is a prefix without letters or digits. */
  lemma {:induction false} DropRunShape(s: string)
    ensures var r := DropRun(s);
      && r == s[|s| - |r|..]
      && (r != [] ==> IsAlnum(r[0]))
      && Alnums(r) == Alnums(s)
  {
    if s != [] && !IsAlnum(s[0]) {
      DropRunShape(s[1..]);
    }
  }

  /** `replace(/[^a-z0-9]+/g, '-')`: every maximal run outside the class becomes one dash. */
  function Collapse(s: string): string
    decreases |s|
  {
    if s == [] then []
    else if IsAlnum(s[0]) then [s[0]] + Collapse(s[1..])
    else "-" + Collapse(DropRun(s[1..]))
  }

  /**
   * The collapsed string has only `[a-z0-9-]`, never two dashes in a row,
   * starts like its input, and keeps the input's letters and digits.
   */
  lemma {:induction false} CollapseShape(s: string)
    ensures var r := Collapse(s);
      && AllSlugChars(r) && NoDoubleDash(r)
      && (|s| > 0 ==> |r| > 0 && (if IsAlnum(s[0]) then r[0] == s[0] else r[0] == '-'))
      && Alnums(r) == Alnums(s)
    decreases |s|
  {
    if s == [] {
    } else if IsAlnum(s[0]) {
      CollapseShape(s[1..]);
    } else {
      var t := DropRun(s[1..]);
      DropRunShape(s[1..]);
      CollapseShape(t);
    }
  }

  /** The first alternative of `/(^-|-$)/g`: a dash at the start goes. */
  function TrimLeading(s: string): string
  {
    if |s| > 0 && s[0] == '-' then s[1..] else s
  }

  /** The second alternative: a dash at the end goes. */
  function TrimTrailing(s: string): string
  {
    if |s| > 0 && s[|s| - 1] == '-' then s[..|s| - 1] else s
  }

  /**
   * `replace(/(^-|-$)/g, '')`. The two alternatives never both match one
   * dash: a lone "-" is consumed by `^-`, after which `-$` finds nothing.
   */
  function TrimDashes(s: string): string
  {
    TrimTrailing(TrimLeading(s))
  }

  /** `generateSlug(title)`. */
  function GenerateSlug(title: string): string
  {
    TrimDashes(Collapse(ToLower(title)))
  }

  predicate AllSlugChars(s: string)
  {
    forall i :: 0 <= i < |s| ==> IsSlugChar(s[i])
  }

  predicate NoDoubleDash(s: string)
  {
    forall i :: 0 <= i < |s| - 1 ==> !(s[i] == '-' && s[i + 1] == '-')
  }

  /** Only `[a-z0-9-]`, no dash at either end, no two dashes in a row. */
  predicate WellFormed(s: string)
  {
    && AllSlugChars(s)
    && NoDoubleDash(s)
    && (|s| > 0 ==> s[0] != '-' && s[|s| - 1] != '-')
  }

  lemma TrimLeadingShape(c: string)
    requires AllSlugChars(c) && NoDoubleDash(c)
    ensures var a := TrimLeading(c);
      AllSlugChars(a) && NoDoubleDash(a) && (|a| > 0 ==> a[0] != '-') && Alnums(a) == Alnums(c)
  {
    if |c| > 0 && c[0] == '-' {
      assert Alnums(c) == Alnums(c[1..]);
      assert |c| > 1 ==> c[1] != '-';
    }
  }

  lemma TrimTrailingShape(a: string)
    requires AllSlugChars(a) && NoDoubleDash(a) && (|a| > 0 ==> a[0] != '-')
    ensures WellFormed(TrimTrailing(a)) && Alnums(TrimTrailing(a)) == Alnums(a)
  {
    if |a| > 0 && a[|a| - 1] == '-' {
      var b := a[..|a| - 1];
      assert forall i :: 0 <= i < |b| ==> b[i] == a[i];
      assert |b| > 0 ==> a[|a| - 2] != '-';
      assert a == b + "-";
      AlnumsAppend(b, "-");
      assert Alnums("-") == "";
    }
  }

  lemma TrimDashesWellFormed(c: string)
    requires AllSlugChars(c) && NoDoubleDash(c)
    ensures WellFormed(TrimDashes(c))
    ensures Alnums(TrimDashes(c)) == Alnums(c)
  {
    TrimLeadingShape(c);
    TrimTrailingShape(TrimLeading(c));
  }

  /** Every derived slug is well formed and keeps the title's letters and digits. */
  lemma GenerateSlugWellFormed(title: string)
    ensures WellFormed(GenerateSlug(title))
    ensures Alnums(GenerateSlug(title)) == Alnums(ToLower(title))
  {
    CollapseShape(ToLower(title));
    TrimDashesWellFormed(Collapse(ToLower(title)));
  }

  /** A well-formed slug is a fixed point of each stage, hence of the whole pipeline. */
  lemma {:induction false} CollapseFixes(w: string)
    requires AllSlugChars(w) && NoDoubleDash(w)
    ensures Collapse(w) == w
  {
    if w != [] {
      CollapseFixes(w[1..]);
      if !IsAlnum(w[0]) {
        assert w[1..] == [] || IsAlnum(w[1]);
        assert DropRun(w[1..]) == w[1..];
      }
      assert w == [w[0]] + w[1..];
    }
  }

  lemma GenerateSlugFixes(w: string)
    requires WellFormed(w)
    ensures GenerateSlug(w) == w
  {
    assert ToLower(w) == w;
    CollapseFixes(w);
  }

  lemma GenerateSlugIdempotent(title: string)
    ensures GenerateSlug(GenerateSlug(title)) == GenerateSlug(title)
  {
    GenerateSlugWellFormed(title);
    GenerateSlugFixes(GenerateSlug(title));
  }

  /** The derived slug is empty exactly when the title has no ASCII letter or digit. */
  lemma EmptySlugIffNoAlnum(title: string)
    ensures GenerateSlug(title) == "" <==> Alnums(ToLower(title)) == ""
  {
    var w := GenerateSlug(title);
    GenerateSlugWellFormed(title);
    if w != "" {
      assert IsAlnum(w[0]);
      assert Alnums(w) == [w[0]] + Alnums(w[1..]);
    }
  }

  /** Letters and digits pass through `Collapse` unchanged. */
  lemma {:induction false} CollapseAlnumPrefix(a: string, s: string)
    requires forall i :: 0 <= i < |a| ==> IsAlnum(a[i])
    ensures Collapse(a + s) == a + Collapse(s)
  {
    if a == [] {
      assert a + s == s;
    } else {
      assert (a + s)[0] == a[0];
      assert (a + s)[1..] == a[1..] + s;
      CollapseAlnumPrefix(a[1..], s);
      assert a + Collapse(s) == [a[0]] + (a[1..] + Collapse(s));
    }
  }

  lemma CollapsePunctuationExample()
    ensures Collapse("!!") == "-"
  {
    assert DropRun("!") == "";
  }

  lemma CollapseSpaceExample()
    ensures Collapse(" post!!") == "-post-"
  {
    assert DropRun("post!!") == "post!!";
    CollapsePunctuationExample();
    CollapseAlnumPrefix("post", "!!");
    assert "post" + "!!" == "post!!";
  }

  lemma CollapseExample()
    ensures Collapse("test" + " post!!") == "test-post-"
  {
    CollapseAlnumPrefix("test", " post!!");
    CollapseSpaceExample();
  }

  /** The derivation worked through for one title, stage by stage. */
  lemma TestPostExample()
    ensures GenerateSlug("Test Post!!") == "test-post"
  {
    assert ToLower("Test Post!!") == "test" + " post!!" by {
      assert LowerChar('T') == 't' && LowerChar('P') == 'p';
    }
    CollapseExample();
    assert TrimLeading("test-post-") == "test-post-";
  }

  /**
   * `formData.slug || generateSlug(formData.title)`: a slug the editor typed is
   * stored verbatim; an empty one is derived from the title.
   */
  function StoredSlug(slug: string, title: string): (r: string)
    ensures slug != "" ==> r == slug
    ensures slug == "" ==> r == GenerateSlug(title)
    ensures slug == "" ==> WellFormed(r) && Alnums(r) == Alnums(ToLower(title))
  {
    if slug != "" then slug
    else
      GenerateSlugWellFormed(title);
      GenerateSlug(title)
  }
}
