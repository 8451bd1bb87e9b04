/** `slugify` (after Django's): from the Unicode-normalised text, drop what is not
    ASCII, lowercase, delete characters that are not word characters, whitespace
    or '-', turn every run of '-' and whitespace into one '-', and strip '-' and
    '_' from both ends. The NFKD normalisation that precedes the ASCII step is not
    modelled: the input is its result. */
module Slug {

  predicate IsAscii(c: char) { c as int < 128 }

  /** Python's `\s` on an ASCII character: the characters `str.isspace()` accepts. */
  predicate IsSpace(c: char)
  {
    c == ' ' || (9 <= c as int <= 13) || (28 <= c as int <= 31)
  }

  predicate IsUpper(c: char) { 'A' <= c <= 'Z' }
  predicate IsLower(c: char) { 'a' <= c <= 'z' }
  predicate IsDigitChar(c: char) { '0' <= c <= '9' }

  /** Python's `\w` on an ASCII character. */
  predicate IsWord(c: char) { IsUpper(c) || IsLower(c) || IsDigitChar(c) || c == '_' }

  /** What the pattern `[-\s]+` matches one character of. */
  predicate IsSeparator(c: char) { c == '-' || IsSpace(c) }

  /** The characters a slug is made of. */
  predicate IsSlugChar(c: char) { IsLower(c) || IsDigitChar(c) || c == '_' || c == '-' }

  /** `.encode("ascii", "ignore").decode("ascii")`. */
  function AsciiOnly(s: string): (r: string)
    ensures forall c :: c in r ==> IsAscii(c) && c in s
  {
    if s == [] then []
    else (if IsAscii(s[0]) then [s[0]] else []) + AsciiOnly(s[1..])
  }

  function LowerChar(c: char): char
  {
    if IsUpper(c) then (c as int + 32) as char else c
  }

  /** `str.lower()` on ASCII text. */
  function Lower(s: string): (r: string)
    ensures |r| == |s|
    ensures forall i :: 0 <= i < |s| ==> r[i] == LowerChar(s[i])
  {
    if s == [] then [] else [LowerChar(s[0])] + Lower(s[1..])
  }

  /** `re.sub(r"[^\w\s-]", "", s)`: keep word characters, whitespace and '-'. */
  function KeepSlugChars(s: string): (r: string)
    ensures forall c :: c in r ==> c in s && (IsWord(c) || IsSeparator(c))
  {
    if s == [] then []
    else (if IsWord(s[0]) || IsSeparator(s[0]) then [s[0]] else []) + KeepSlugChars(s[1..])
  }

  /** `re.sub(r"[-\s]+", "-", s)`, scanning left to right; `inRun` says whether the
      previous character belonged to a run that has already been replaced. */
  function CollapseFrom(s: string, inRun: bool): string
  {
    if s == [] then []
    else if IsSeparator(s[0]) then
      (if inRun then [] else ['-']) + CollapseFrom(s[1..], true)
    else
      [s[0]] + CollapseFrom(s[1..], false)
  }

  function Collapse(s: string): string
  {
    CollapseFrom(s, false)
  }

  /** After the substitution every character is a '-' or a non-separator of the
      input, no '-' follows a '-', and a scan that starts inside a run does not
      start with '-'. */
  lemma {:induction false} CollapseShape(s: string, inRun: bool)
    ensures var r := CollapseFrom(s, inRun);
            && (forall c :: c in r ==> c == '-' || (c in s && !IsSeparator(c)))
            && NoDoubleDash(r)
            && (inRun && r != [] ==> r[0] != '-')
  {
    if s != [] {
      var t := s[1..];
      var sep := IsSeparator(s[0]);
      CollapseShape(t, sep);
      var rest := CollapseFrom(t, sep);
      var head: string := if sep then (if inRun then [] else ['-']) else [s[0]];
      var r := CollapseFrom(s, inRun);
      assert r == head + rest;
      forall c | c in r ensures c == '-' || (c in s && !IsSeparator(c)) {
        if c in rest {
          assert c in t ==> c in s;
        }
      }
      forall i | 0 <= i < |r| - 1 ensures !(r[i] == '-' && r[i + 1] == '-') {
        if i >= |head| {
          assert r[i] == rest[i - |head|] && r[i + 1] == rest[i - |head| + 1];
        } else {
          assert r[i + 1] == rest[0];
        }
      }
    }
  }

  predicate IsStripped(c: char) { c == '-' || c == '_' }

  /** `lstrip("-_")`: the suffix left after dropping every leading '-' and '_'. */
  function StripLeft(s: string): (r: string)
    ensures |r| <= |s| && r == s[|s| - |r|..]
    ensures forall k :: 0 <= k < |s| - |r| ==> IsStripped(s[k])
    ensures r != [] ==> !IsStripped(r[0])
  {
    if s != [] && IsStripped(s[0]) then StripLeft(s[1..]) else s
  }

  /** `rstrip("-_")`: the prefix left after dropping every trailing '-' and '_'. */
  function StripRight(s: string): (r: string)
    ensures |r| <= |s| && r == s[..|r|]
    ensures forall k :: |r| <= k < |s| ==> IsStripped(s[k])
    ensures r != [] ==> !IsStripped(r[|r| - 1])
  {
    if s != [] && IsStripped(s[|s| - 1]) then StripRight(s[..|s| - 1]) else s
  }

  /** `.strip("-_")`. */
  function Strip(s: string): (r: string)
    ensures r != [] ==> !IsStripped(r[0]) && !IsStripped(r[|r| - 1])
  {
    StripRight(StripLeft(s))
  }

  /** What `strip` returns is a substring of its input. */
  lemma StripIsSubstring(s: string)
    ensures exists i, j :: 0 <= i <= j <= |s| && Strip(s) == s[i..j]
  {
    var l := StripLeft(s);
    var r := StripRight(l);
    PrefixOfSuffix(s, l, r);
  }

  /** `slugify(value, allow_unicode=False)` applied to the NFKD-normalised text. */
  function Slugify(normalised: string): string
  {
    Strip(Collapse(KeepSlugChars(Lower(AsciiOnly(normalised)))))
  }

  predicate AllSlugChars(s: string)
  {
    forall i :: 0 <= i < |s| ==> IsSlugChar(s[i])
  }

  predicate NoDoubleDash(s: string)
  {
    forall i :: 0 <= i < |s| - 1 ==> !(s[i] == '-' && s[i + 1] == '-')
  }

  /** The shape of every slug: lowercase ASCII letters, digits, '_' and '-' only (so
      no whitespace), never two '-' in a row, and no '-' or '_' at either end. */
  predicate IsSlug(s: string)
  {
    && AllSlugChars(s)
    && NoDoubleDash(s)
    && (s != [] ==> !IsStripped(s[0]) && !IsStripped(s[|s| - 1]))
  }

  lemma LowerRemovesUpper(s: string)
    ensures forall c :: c in Lower(s) ==> !IsUpper(c)
  {
    forall c | c in Lower(s) ensures !IsUpper(c) {
      var i :| 0 <= i < |Lower(s)| && Lower(s)[i] == c;
    }
  }

  /** After the deletion step only lowercase ASCII word characters, whitespace and
      '-' remain. */
  lemma KeptChars(normalised: string)
    ensures forall c :: c in KeepSlugChars(Lower(AsciiOnly(normalised))) ==>
              IsAscii(c) && !IsUpper(c) && (IsWord(c) || IsSeparator(c))
  {
    var ascii := AsciiOnly(normalised);
    var lowered := Lower(ascii);
    forall c | c in lowered ensures IsAscii(c) && !IsUpper(c) {
      var i :| 0 <= i < |lowered| && lowered[i] == c;
      assert ascii[i] in ascii;
    }
  }

  /** After collapsing, only slug characters remain and no '-' follows a '-'. */
  lemma CollapsedShape(normalised: string)
    ensures var collapsed := Collapse(KeepSlugChars(Lower(AsciiOnly(normalised))));
            AllSlugChars(collapsed) && NoDoubleDash(collapsed)
  {
    KeptChars(normalised);
    CollapseShape(KeepSlugChars(Lower(AsciiOnly(normalised))), false);
    var collapsed := Collapse(KeepSlugChars(Lower(AsciiOnly(normalised))));
    forall i | 0 <= i < |collapsed| ensures IsSlugChar(collapsed[i]) {
      assert collapsed[i] in collapsed;
    }
  }

  /** Every output of `slugify` has the slug shape. */
  lemma SlugifyIsSlug(normalised: string)
    ensures IsSlug(Slugify(normalised))
  {
    var collapsed := Collapse(KeepSlugChars(Lower(AsciiOnly(normalised))));
    CollapsedShape(normalised);
    SubstringKeepsShape(collapsed);
  }

  /** `strip` keeps a substring, so the character and '--' properties carry over. */
  lemma SubstringKeepsShape(collapsed: string)
    requires AllSlugChars(collapsed) && NoDoubleDash(collapsed)
    ensures IsSlug(Strip(collapsed))
  {
    var l := StripLeft(collapsed);
    var r := StripRight(l);
    assert r == Strip(collapsed);
    TrimmedSliceShape(collapsed, l, r);
  }

  lemma TrimmedSliceShape(s: string, l: string, r: string)
    requires AllSlugChars(s) && NoDoubleDash(s)
    requires |l| <= |s| && l == s[|s| - |l|..]
    requires |r| <= |l| && r == l[..|r|]
    requires r != [] ==> !IsStripped(r[0]) && !IsStripped(r[|r| - 1])
    ensures IsSlug(r)
  {
    PrefixOfSuffix(s, l, r);
    SliceShape(s, |s| - |l|, |s| - |l| + |r|);
  }

  lemma PrefixOfSuffix(s: string, l: string, r: string)
    requires |l| <= |s| && l == s[|s| - |l|..]
    requires |r| <= |l| && r == l[..|r|]
    ensures r == s[|s| - |l|..|s| - |l| + |r|]
  {
  }

  lemma SliceShape(s: string, i: nat, j: nat)
    requires i <= j <= |s|
    requires AllSlugChars(s) && NoDoubleDash(s)
    ensures AllSlugChars(s[i..j]) && NoDoubleDash(s[i..j])
  {
    var r := s[i..j];
    forall k | 0 <= k < |r| ensures IsSlugChar(r[k]) {
      assert r[k] == s[i + k];
    }
    forall k | 0 <= k < |r| - 1 ensures !(r[k] == '-' && r[k + 1] == '-') {
      assert r[k] == s[i + k] && r[k + 1] == s[i + k + 1];
    }
  }

  lemma {:induction false} AsciiOnlyKeepsAscii(s: string)
    requires forall c :: c in s ==> IsAscii(c)
    ensures AsciiOnly(s) == s
  {
    if s != [] {
      AsciiOnlyKeepsAscii(s[1..]);
    }
  }

  lemma {:induction false} LowerKeepsLower(s: string)
    requires forall c :: c in s ==> !IsUpper(c)
    ensures Lower(s) == s
  {
    if s != [] {
      LowerKeepsLower(s[1..]);
    }
  }

  /** Word characters, whitespace and '-' pass the deletion step unchanged. */
  lemma {:induction false} KeepSlugCharsKeeps(s: string)
    requires forall c :: c in s ==> IsWord(c) || IsSeparator(c)
    ensures KeepSlugChars(s) == s
  {
    if s != [] {
      assert s[0] in s;
      assert forall c :: c in s[1..] ==> c in s;
      KeepSlugCharsKeeps(s[1..]);
      assert s == [s[0]] + s[1..];
    }
  }

  lemma {:induction false} CollapseKeeps(s: string, inRun: bool)
    requires AllSlugChars(s) && NoDoubleDash(s)
    requires inRun && s != [] ==> s[0] != '-'
    ensures CollapseFrom(s, inRun) == s
  {
    if s != [] {
      var t := s[1..];
      assert IsSeparator(s[0]) <==> s[0] == '-' by { assert IsSlugChar(s[0]); }
      assert AllSlugChars(t) by {
        forall i | 0 <= i < |t| ensures IsSlugChar(t[i]) { assert t[i] == s[i + 1]; }
      }
      assert NoDoubleDash(t) by {
        forall i | 0 <= i < |t| - 1 ensures !(t[i] == '-' && t[i + 1] == '-') {
          assert t[i] == s[i + 1] && t[i + 1] == s[i + 2];
        }
      }
      assert s[0] == '-' && t != [] ==> t[0] != '-' by {
        if |s| > 1 { assert t[0] == s[1]; }
      }
      CollapseKeeps(t, s[0] == '-');
      assert s == [s[0]] + t;
    }
  }

  lemma StripKeeps(s: string)
    requires s != [] ==> !IsStripped(s[0]) && !IsStripped(s[|s| - 1])
    ensures Strip(s) == s
  {
  }

  /** A slug passes every step of `slugify` unchanged. */
  lemma SlugFixed(s: string)
    requires IsSlug(s)
    ensures Slugify(s) == s
  {
    forall c | c in s ensures IsSlugChar(c) {
      var i :| 0 <= i < |s| && s[i] == c;
    }
    AsciiOnlyKeepsAscii(s);
    LowerKeepsLower(s);
    KeepSlugCharsKeeps(s);
    CollapseKeeps(s, false);
    StripKeeps(s);
  }

  /** `slugify` is idempotent: a slug is its own slug. */
  lemma SlugifyIdempotent(normalised: string)
    ensures Slugify(Slugify(normalised)) == Slugify(normalised)
  {
    SlugifyIsSlug(normalised);
    SlugFixed(Slugify(normalised));
  }

  // What survives: each step keeps, in order, the characters it is meant to keep.

  /** The ASCII step works character by character, so it distributes over
      concatenation; with `AsciiOnlyKeepsAscii` every ASCII character is kept, in
      order. */
  lemma {:induction false} AsciiOnlyAppend(a: string, b: string)
    ensures AsciiOnly(a + b) == AsciiOnly(a) + AsciiOnly(b)
    decreases |a|
  {
    if a == [] {
      assert a + b == b;
    } else {
      var x := a + b;
      assert x[0] == a[0];
      assert x[1..] == a[1..] + b;
      AsciiOnlyAppend(a[1..], b);
    }
  }

  lemma LowerAppend(a: string, b: string)
    ensures Lower(a + b) == Lower(a) + Lower(b)
  {
  }

  /** The deletion step distributes over concatenation; with `KeepSlugCharsKeeps`
      every word character, whitespace and '-' is kept, in order. */
  lemma {:induction false} KeepSlugCharsAppend(a: string, b: string)
    ensures KeepSlugChars(a + b) == KeepSlugChars(a) + KeepSlugChars(b)
    decreases |a|
  {
    if a == [] {
      assert a + b == b;
    } else {
      var x := a + b;
      assert x[0] == a[0];
      assert x[1..] == a[1..] + b;
      KeepSlugCharsAppend(a[1..], b);
    }
  }

  /** The characters of `s` that are neither '-' nor whitespace, in order. */
  function NonSeparators(s: string): string
  {
    if s == [] then [] else (if IsSeparator(s[0]) then [] else [s[0]]) + NonSeparators(s[1..])
  }

  /** `s` with every '-' deleted. */
  function DropDashes(s: string): string
  {
    if s == [] then [] else (if s[0] == '-' then [] else [s[0]]) + DropDashes(s[1..])
  }

  lemma {:induction false} DropDashesAppend(a: string, b: string)
    ensures DropDashes(a + b) == DropDashes(a) + DropDashes(b)
    decreases |a|
  {
    if a == [] {
      assert a + b == b;
    } else {
      var x := a + b;
      assert x[0] == a[0];
      assert x[1..] == a[1..] + b;
      DropDashesAppend(a[1..], b);
    }
  }

  /** The substitution only rewrites runs of separators: deleting the '-' it
      writes gives back every other character of its input, in order. */
  lemma {:induction false} CollapseKeepsWords(s: string, inRun: bool)
    ensures DropDashes(CollapseFrom(s, inRun)) == NonSeparators(s)
  {
    if s != [] {
      var sep := IsSeparator(s[0]);
      var head: string := if sep then (if inRun then [] else ['-']) else [s[0]];
      var rest := CollapseFrom(s[1..], sep);
      assert CollapseFrom(s, inRun) == head + rest;
      DropDashesAppend(head, rest);
      CollapseKeepsWords(s[1..], sep);
      assert DropDashes(head) == (if sep then [] else [s[0]]);
    }
  }

  /** A lowercase ASCII letter or a digit: what a slug keeps of a word. */
  predicate IsAlnum(c: char) { IsLower(c) || IsDigitChar(c) }

  /** The lowercase letters and digits of `s`, in order. */
  function Alnums(s: string): string
  {
    if s == [] then [] else (if IsAlnum(s[0]) then [s[0]] else []) + Alnums(s[1..])
  }

  lemma {:induction false} AlnumsAppend(a: string, b: string)
    ensures Alnums(a + b) == Alnums(a) + Alnums(b)
    decreases |a|
  {
    if a == [] {
      assert a + b == b;
    } else {
      var x := a + b;
      assert x[0] == a[0];
      assert x[1..] == a[1..] + b;
      AlnumsAppend(a[1..], b);
      var h: string := if IsAlnum(a[0]) then [a[0]] else [];
      assert Alnums(x) == h + (Alnums(a[1..]) + Alnums(b));
      assert Alnums(a) == h + Alnums(a[1..]);
      assert h + (Alnums(a[1..]) + Alnums(b)) == (h + Alnums(a[1..])) + Alnums(b);
    }
  }

  lemma {:induction false} AlnumsKeptByFilter(s: string)
    ensures Alnums(KeepSlugChars(s)) == Alnums(s)
  {
    if s != [] {
      var head: string := if IsWord(s[0]) || IsSeparator(s[0]) then [s[0]] else [];
      assert KeepSlugChars(s) == head + KeepSlugChars(s[1..]);
      AlnumsAppend(head, KeepSlugChars(s[1..]));
      AlnumsKeptByFilter(s[1..]);
      assert Alnums(head) == (if IsAlnum(s[0]) then [s[0]] else []);
    }
  }

  lemma {:induction false} AlnumsKeptByCollapse(s: string, inRun: bool)
    ensures Alnums(CollapseFrom(s, inRun)) == Alnums(s)
  {
    if s != [] {
      var sep := IsSeparator(s[0]);
      var head: string := if sep then (if inRun then [] else ['-']) else [s[0]];
      var rest := CollapseFrom(s[1..], sep);
      assert CollapseFrom(s, inRun) == head + rest;
      AlnumsAppend(head, rest);
      AlnumsKeptByCollapse(s[1..], sep);
      assert Alnums(head) == (if IsAlnum(s[0]) then [s[0]] else []);
    }
  }

  lemma {:induction false} AlnumsOfStripped(p: string)
    requires forall k :: 0 <= k < |p| ==> IsStripped(p[k])
    ensures Alnums(p) == []
  {
    if p != [] {
      assert IsStripped(p[0]);
      AlnumsOfStripped(p[1..]);
    }
  }

  /** Characters `strip` removes are never letters or digits. */
  lemma AlnumsIgnoreStripped(p: string, r: string)
    requires forall k :: 0 <= k < |p| ==> IsStripped(p[k])
    ensures Alnums(p + r) == Alnums(r) && Alnums(r + p) == Alnums(r)
  {
    AlnumsOfStripped(p);
    AlnumsAppend(p, r);
    AlnumsAppend(r, p);
  }

  lemma {:induction false} AlnumsKeptByStripLeft(s: string)
    ensures Alnums(StripLeft(s)) == Alnums(s)
  {
    if s != [] && IsStripped(s[0]) {
      assert !IsAlnum(s[0]);
      AlnumsKeptByStripLeft(s[1..]);
    }
  }

  lemma AlnumsKeptByStripRight(s: string)
    ensures Alnums(StripRight(s)) == Alnums(s)
  {
    var r := StripRight(s);
    assert r == s[..|r|];
    assert s == r + s[|r|..];
    AlnumsIgnoreStripped(s[|r|..], r);
  }

  lemma AlnumsKeptByStrip(s: string)
    ensures Alnums(Strip(s)) == Alnums(s)
  {
    AlnumsKeptByStripLeft(s);
    AlnumsKeptByStripRight(StripLeft(s));
  }

  /** `slugify` keeps every letter and digit of the ASCII part of its input,
      lower-cased and in order: only separators, punctuation and the characters
      the ASCII step drops are lost. */
  lemma SlugifyKeepsAlnums(normalised: string)
    ensures Alnums(Slugify(normalised)) == Alnums(Lower(AsciiOnly(normalised)))
  {
    var kept := KeepSlugChars(Lower(AsciiOnly(normalised)));
    AlnumsKeptByFilter(Lower(AsciiOnly(normalised)));
    AlnumsKeptByCollapse(kept, false);
    AlnumsKeptByStrip(Collapse(kept));
  }

  /** A worked case: "A b!" becomes "a-b". */
  lemma SlugifyExample()
    ensures Slugify("A b!") == "a-b"
  {
    ExampleAscii();
    ExampleLower();
    ExampleFilter();
    ExampleCollapse();
    ExampleStrip();
  }

  lemma ExampleAscii()
    ensures AsciiOnly("A b!") == "A b!"
  {
    var s := "A b!";
    assert s[3..] == "!" && s[2..] == "b!" && s[1..] == " b!";
    assert AsciiOnly(s[3..]) == "!";
    assert AsciiOnly(s[2..]) == "b!";
    assert AsciiOnly(s[1..]) == " b!";
  }

  lemma ExampleLower()
    ensures Lower("A b!") == "a b!"
  {
  }

  lemma ExampleFilter()
    ensures KeepSlugChars("a b!") == "a b"
  {
    var t := "a b!";
    assert KeepSlugChars(t[3..]) == [];
    assert KeepSlugChars(t[2..]) == "b";
    assert KeepSlugChars(t[1..]) == " b";
  }

  lemma ExampleCollapse()
    ensures Collapse("a b") == "a-b"
  {
    var u := "a b";
    assert CollapseFrom(u[2..], true) == "b";
    assert CollapseFrom(u[1..], false) == "-b";
  }

  lemma ExampleStrip()
    ensures Strip("a-b") == "a-b"
  {
    var v := "a-b";
    assert v[0] == 'a' && v[|v| - 1] == 'b';
    StripKeeps(v);
  }

  // How the substitution treats runs: words are copied, each run becomes one '-'.

  /** What the substitution writes for one character, given whether the scan is
      inside a run. */
  function CollapseHead(c: char, inRun: bool): string
  {
    if IsSeparator(c) then (if inRun then [] else ['-']) else [c]
  }

  lemma CollapseStep(s: string, inRun: bool)
    requires s != []
    ensures CollapseFrom(s, inRun) == CollapseHead(s[0], inRun) + CollapseFrom(s[1..], IsSeparator(s[0]))
  {
  }

  /** Whether the scan is inside a run after reading `a`, having started with `inRun`. */
  function RunAfter(a: string, inRun: bool): bool
  {
    if a == [] then inRun else IsSeparator(a[|a| - 1])
  }

  /** The substitution works run by run: on a concatenation it handles the second
      part as if the scan had just read the first. */
  lemma {:induction false} CollapseAppend(a: string, b: string, inRun: bool)
    ensures CollapseFrom(a + b, inRun) == CollapseFrom(a, inRun) + CollapseFrom(b, RunAfter(a, inRun))
    decreases |a|
  {
    if a == [] {
      assert a + b == b;
    } else {
      var sep := IsSeparator(a[0]);
      ConsAppend(a, b);
      CollapseStep(a + b, inRun);
      CollapseStep(a, inRun);
      CollapseAppend(a[1..], b, sep);
      RunAfterTail(a, inRun);
      var head := CollapseHead(a[0], inRun);
      var p := CollapseFrom(a[1..], sep);
      var q := CollapseFrom(b, RunAfter(a, inRun));
      assert head + (p + q) == (head + p) + q;
    }
  }

  lemma ConsAppend(a: string, b: string)
    requires a != []
    ensures (a + b)[0] == a[0] && (a + b)[1..] == a[1..] + b
  {
  }

  lemma RunAfterTail(a: string, inRun: bool)
    requires a != []
    ensures RunAfter(a[1..], IsSeparator(a[0])) == RunAfter(a, inRun)
  {
    if |a| > 1 {
      assert a[1..][|a[1..]| - 1] == a[|a| - 1];
    }
  }

  /** A non-empty run of '-' and whitespace becomes a single '-' (nothing more when
      the scan is already inside a run). */
  lemma {:induction false} CollapseRun(w: string, inRun: bool)
    requires w != []
    requires forall k :: 0 <= k < |w| ==> IsSeparator(w[k])
    ensures CollapseFrom(w, inRun) == (if inRun then [] else ['-'])
  {
    assert IsSeparator(w[0]);
    if |w| > 1 {
      CollapseRun(w[1..], true);
    }
  }

  /** Every character of a non-empty separator run survives the first three steps. */
  lemma RunSurvivesFilters(w: string)
    requires forall k :: 0 <= k < |w| ==> IsSeparator(w[k])
    ensures KeepSlugChars(Lower(AsciiOnly(w))) == w
  {
    forall c | c in w ensures IsSeparator(c) {
      var i :| 0 <= i < |w| && w[i] == c;
    }
    assert forall c :: c in w ==> IsAscii(c) && !IsUpper(c);
    AsciiOnlyKeepsAscii(w);
    LowerKeepsLower(w);
    KeepSlugCharsKeeps(w);
  }

  /** A slug passes the first three steps unchanged. */
  lemma SlugSurvivesFilters(a: string)
    requires IsSlug(a)
    ensures KeepSlugChars(Lower(AsciiOnly(a))) == a
  {
    forall c | c in a ensures IsSlugChar(c) {
      var i :| 0 <= i < |a| && a[i] == c;
    }
    AsciiOnlyKeepsAscii(a);
    LowerKeepsLower(a);
    KeepSlugCharsKeeps(a);
  }

  /** "Spaces or repeated dashes become single dashes": two slugs joined by any
      non-empty run of whitespace and '-' slugify to the two slugs joined by one '-'. */
  lemma SlugifyJoinsRun(a: string, w: string, b: string)
    requires IsSlug(a) && IsSlug(b) && a != [] && b != []
    requires w != [] && forall k :: 0 <= k < |w| ==> IsSeparator(w[k])
    ensures Slugify(a + w + b) == a + "-" + b
  {
    var filtered := KeepSlugChars(Lower(AsciiOnly(a + w + b)));
    assert filtered == a + w + b by {
      AsciiOnlyAppend(a + w, b);
      AsciiOnlyAppend(a, w);
      LowerAppend(AsciiOnly(a) + AsciiOnly(w), AsciiOnly(b));
      LowerAppend(AsciiOnly(a), AsciiOnly(w));
      KeepSlugCharsAppend(Lower(AsciiOnly(a)) + Lower(AsciiOnly(w)), Lower(AsciiOnly(b)));
      KeepSlugCharsAppend(Lower(AsciiOnly(a)), Lower(AsciiOnly(w)));
      SlugSurvivesFilters(a);
      RunSurvivesFilters(w);
      SlugSurvivesFilters(b);
    }
    assert Collapse(a + w + b) == a + "-" + b by {
      CollapseAppend(a + w, b, false);
      CollapseAppend(a, w, false);
      assert !IsSeparator(a[|a| - 1]);
      CollapseKeeps(a, false);
      CollapseRun(w, false);
      assert (a + w)[|a + w| - 1] == w[|w| - 1];
      assert b[0] != '-';
      CollapseKeeps(b, true);
    }
    var joined := a + "-" + b;
    assert joined[0] == a[0] && joined[|joined| - 1] == b[|b| - 1];
    StripKeeps(joined);
  }
}
