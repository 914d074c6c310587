/** `AE.Style`: class names and visibility of a page element. The regular
    expressions of `hasClass` and `removeClass` are written out as scans over
    the class string, with JavaScript's `\b` (a change between a word
    character and a non-word character) and `\s`. */
module Style {
  import opened Common

  /** A character `\w` matches. */
  predicate IsWordChar(c: char)
  {
    ('a' <= c <= 'z') || ('A' <= c <= 'Z') || ('0' <= c <= '9') || c == '_'
  }

  /** A character `\s` matches: tab to carriage return, space, and the
      Unicode spaces JavaScript adds. */
  predicate IsWhite(c: char)
  {
    var n := c as int;
    (9 <= n <= 13) || n == 32 || n == 0xA0 || n == 0x1680 || (0x2000 <= n <= 0x200A) ||
    n == 0x2028 || n == 0x2029 || n == 0x202F || n == 0x205F || n == 0x3000 || n == 0xFEFF
  }

  /** `\b` at position p of s: exactly one of the characters around p is a word character. */
  predicate Boundary(s: string, p: nat)
    requires p <= |s|
  {
    (p > 0 && IsWordChar(s[p - 1])) != (p < |s| && IsWordChar(s[p]))
  }

  /** The case-insensitive comparison of the `i` flag, for ASCII letters. */
  function FoldChar(c: char): char
  {
    if 'A' <= c <= 'Z' then (c as int + 32) as char else c
  }

  predicate SameFolded(x: string, y: string)
  {
    |x| == |y| && forall k :: 0 <= k < |x| ==> FoldChar(x[k]) == FoldChar(y[k])
  }

  /** `(^|\b)name(\b|$)` matches with `name` starting at i. */
  predicate ClassAt(s: string, name: string, i: nat)
  {
    i + |name| <= |s| && s[i..i + |name|] == name &&
    (i == 0 || Boundary(s, i)) && (i + |name| == |s| || Boundary(s, i + |name|))
  }

  /** `hasClass(element, name)` for a non-empty class string and name. */
  predicate HasClassIn(s: string, name: string)
  {
    s != "" && name != "" && exists i :: 0 <= i <= |s| && ClassAt(s, name, i)
  }

  /** Where the run of white space starting at p ends. */
  function WhiteEnd(s: string, p: nat): (q: nat)
    requires p <= |s|
    ensures p <= q <= |s|
    ensures q < |s| ==> !IsWhite(s[q])
    ensures forall k :: p <= k < q ==> IsWhite(s[k])
    decreases |s| - p
  {
    if p < |s| && IsWhite(s[p]) then WhiteEnd(s, p + 1) else p
  }

  /** `(^\s*|\s*\b)name(\b|$)` with the `i` flag matches at p (white space
      first, then the name); the result is where the match ends. */
  function RemovalAt(s: string, name: string, p: nat): (r: Option<nat>)
    requires p <= |s| && name != ""
    ensures r.Some? ==> p < r.value <= |s|
  {
    var q := WhiteEnd(s, p);
    if q + |name| <= |s| && SameFolded(s[q..q + |name|], name) &&
       (p == 0 || Boundary(s, q)) && (q + |name| == |s| || Boundary(s, q + |name|))
    then Some(q + |name|)
    else None
  }

  /** `s.replace(regex, "")` with the global flag, scanning from p: each
      match, leftmost first, is dropped and the scan resumes after it. */
  function RemoveFrom(s: string, name: string, p: nat): (r: string)
    requires p <= |s| && name != ""
    ensures |r| <= |s| - p
    decreases |s| - p
  {
    if p == |s| then ""
    else match RemovalAt(s, name, p)
      case Some(e) => RemoveFrom(s, name, e)
      case None => [s[p]] + RemoveFrom(s, name, p + 1)
  }

  /** Positions where no match starts are copied by the scan. */
  lemma {:induction false} RemoveCopies(s: string, name: string, p: nat, m: nat)
    requires p <= m <= |s| && name != ""
    requires forall k :: p <= k < m ==> RemovalAt(s, name, k).None?
    ensures RemoveFrom(s, name, p) == s[p..m] + RemoveFrom(s, name, m)
    decreases m - p
  {
    if p < m {
      var rest := RemoveFrom(s, name, m);
      calc {
        RemoveFrom(s, name, p);
        { CopyStep(s, name, p); }
        [s[p]] + RemoveFrom(s, name, p + 1);
        { RemoveCopies(s, name, p + 1, m); }
        [s[p]] + (s[p + 1..m] + rest);
        ([s[p]] + s[p + 1..m]) + rest;
        { assert s[p..m] == [s[p]] + s[p + 1..m]; }
        s[p..m] + rest;
      }
    }
  }

  /** One step of the scan where no match starts. */
  lemma CopyStep(s: string, name: string, p: nat)
    requires p < |s| && name != ""
    requires RemovalAt(s, name, p).None?
    ensures RemoveFrom(s, name, p) == [s[p]] + RemoveFrom(s, name, p + 1)
  {
  }

  /** A class string in which no match of the pattern starts anywhere is left as it is. */
  lemma RemoveWithoutMatch(s: string, name: string)
    requires name != ""
    requires forall k :: 0 <= k < |s| ==> RemovalAt(s, name, k).None?
    ensures RemoveFrom(s, name, 0) == s
  {
    RemoveCopies(s, name, 0, |s|);
    assert s[0..|s|] == s;
  }

  /** What `show` and `hide` read and write: the inline display and the saved
      display (`original_display`, undefined until the first hide). */
  datatype Look = Look(display: string, original: Option<string>)

  /** `show`: a hidden element gets its saved display back, or "block" when
      none (or an empty one) was saved; a visible one is left alone. */
  function Shown(l: Look): (r: Look)
    ensures l.display != "none" ==> r == l
    ensures r.display == "none" ==> l.original == Some("none")
    ensures l.display == "none" ==> r.display != ""
    ensures r.original == l.original
  {
    if l.display == "none" then
      l.(display := if l.original.Some? && l.original.value != "" then l.original.value else "block")
    else l
  }

  /** `hide`: a visible element saves its display and gets "none". */
  function Hidden(l: Look): (r: Look)
    ensures r.display == "none"
    ensures l.display == "none" ==> r == l
    ensures l.display != "none" ==> r.original == Some(l.display)
  {
    if l.display == "none" then l else Look("none", Some(l.display))
  }

  /** Hiding twice is hiding once. */
  lemma HideIdempotent(l: Look)
    ensures Hidden(Hidden(l)) == Hidden(l)
  {
  }

  /** Showing twice is showing once. */
  lemma ShowIdempotent(l: Look)
    ensures Shown(Shown(l)) == Shown(l)
  {
  }

  /** `show` after `hide` brings back the display the element had, or
      "block" when that was the empty string. */
  lemma HideThenShow(l: Look)
    requires l.display != "none"
    ensures Shown(Hidden(l)).display == if l.display == "" then "block" else l.display
  {
  }

  /** `addClass` on the class string: an empty name or one `hasClass`
      finds changes nothing; otherwise the name is appended, after a space
      when the class string was not empty. */
  function AddedClass(s: string, name: string): string
  {
    if name == "" || HasClassIn(s, name) then s
    else s + (if s != "" then " " else "") + name
  }

  /** The name `addClass` appends is found by `hasClass` when it starts and
      ends with a word character. */
  lemma AppendedClassFound(s: string, name: string)
    requires name != "" && IsWordChar(name[0]) && IsWordChar(name[|name| - 1])
    ensures HasClassIn(s + (if s != "" then " " else "") + name, name)
  {
    var sep := if s != "" then " " else "";
    var t := s + sep + name;
    var i := |s| + |sep|;
    assert t[i..i + |name|] == name;
    assert t[i] == name[0];
    assert ClassAt(t, name, i);
  }

  /** A page element with the attributes `AE.Style` reads and writes. */
  class Element {
    var className: string
    var display: string
    var originalDisplay: Option<string>

    constructor(className: string, display: string)
      ensures this.className == className && this.display == display && originalDisplay == None
    {
      this.className := className;
      this.display := display;
      originalDisplay := None;
    }

    function Appearance(): Look
      reads this
    {
      Look(display, originalDisplay)
    }

    /** `hasClass(element, name)`. */
    predicate HasClass(name: string)
      reads this
    {
      HasClassIn(className, name)
    }

    /** `addClass(element, name)`. */
    method AddClass(name: string)
      modifies this
      ensures className == AddedClass(old(className), name)
      ensures display == old(display) && originalDisplay == old(originalDisplay)
    {
      if name == "" {
        return;
      }
      if !HasClass(name) {
        className := className + (if className != "" then " " else "") + name;
      }
    }

    /** `removeClass(element, name)`: every match of `(^\s*|\s*\b)name(\b|$)`,
        ignoring case, is cut out together with the white space before it. */
    method RemoveClass(name: string)
      modifies this
      ensures className == if old(className) == "" || name == "" then old(className) else RemoveFrom(old(className), name, 0)
      ensures display == old(display) && originalDisplay == old(originalDisplay)
    {
      if className == "" || name == "" {
        return;
      }
      className := RemoveFrom(className, name, 0);
    }

    method Show()
      modifies this
      ensures Appearance() == Shown(old(Appearance())) && className == old(className)
    {
      if display == "none" {
        display := if originalDisplay.Some? && originalDisplay.value != "" then originalDisplay.value else "block";
      }
    }

    method Hide()
      modifies this
      ensures Appearance() == Hidden(old(Appearance())) && className == old(className)
    {
      if display == "none" {
        return;
      }
      originalDisplay := Some(display);
      display := "none";
    }
  }

  /** `addClass` is idempotent for names that start and end with a word
      character: once added, the name is found, and adding it again changes
      nothing. */
  lemma AddClassIdempotent(s: string, name: string)
    requires name != "" && IsWordChar(name[0]) && IsWordChar(name[|name| - 1])
    ensures HasClassIn(AddedClass(s, name), name)
    ensures AddedClass(AddedClass(s, name), name) == AddedClass(s, name)
  {
    if !HasClassIn(s, name) {
      AppendedClassFound(s, name);
    }
  }

  /** A class name made of word characters only. */
  predicate IsWordName(name: string)
  {
    name != "" && forall k :: 0 <= k < |name| ==> IsWordChar(name[k])
  }

  /** White space runs end at the same place in a string and in any
      extension of it, when the string does not end in white space. */
  lemma {:induction false} WhiteEndInPrefix(s: string, t: string, k: nat)
    requires k < |s| <= |t| && t[..|s|] == s && !IsWhite(s[|s| - 1])
    ensures WhiteEnd(t, k) == WhiteEnd(s, k) < |s|
    decreases |s| - k
  {
    assert t[k] == s[k];
    if IsWhite(s[k]) {
      WhiteEndInPrefix(s, t, k + 1);
    }
  }

  /** Appending " name" creates no match of the pattern inside `s`. */
  lemma NoNewMatchBefore(s: string, name: string, k: nat)
    requires IsWordName(name) && s != "" && !IsWhite(s[|s| - 1]) && k < |s|
    requires RemovalAt(s, name, k).None?
    ensures RemovalAt(s + " " + name, name, k).None?
  {
    var t := s + " " + name;
    assert t[..|s|] == s;
    WhiteEndInPrefix(s, t, k);
    var q := WhiteEnd(s, k);
    if q + |name| <= |t| && SameFolded(t[q..q + |name|], name) {
      NoSpaceInFolded(t, name, q);
      assert t[|s|] == ' ';
      assert q + |name| <= |s|;
      assert t[q..q + |name|] == s[q..q + |name|];
      assert Boundary(t, q) == Boundary(s, q);
      if q + |name| < |s| {
        assert Boundary(t, q + |name|) == Boundary(s, q + |name|);
      }
    }
  }

  /** A piece of text that equals a word name, ignoring case, holds no space. */
  lemma NoSpaceInFolded(t: string, name: string, q: nat)
    requires IsWordName(name) && q + |name| <= |t| && SameFolded(t[q..q + |name|], name)
    ensures forall j :: q <= j < q + |name| ==> t[j] != ' '
  {
    forall j | q <= j < q + |name|
      ensures t[j] != ' '
    {
      assert t[q..q + |name|][j - q] == t[j];
      assert IsWordChar(name[j - q]);
    }
  }

  /** A class `hasClass` finds is also a match of the `removeClass` pattern. */
  lemma NoRemovalNoClass(s: string, name: string)
    requires IsWordName(name)
    requires forall k :: 0 <= k < |s| ==> RemovalAt(s, name, k).None?
    ensures !HasClassIn(s, name)
  {
    forall i | 0 <= i <= |s|
      ensures !ClassAt(s, name, i)
    {
      assert ClassAt(s, name, i) ==> i < |s| && s[i] == name[0] && WhiteEnd(s, i) == i;
      assert ClassAt(s, name, i) ==> SameFolded(s[i..i + |name|], name);
      assert ClassAt(s, name, i) ==> RemovalAt(s, name, i).Some?;
    }
  }

  /** `removeClass` undoes `addClass` of a new word name, when the class
      string has no match of the name (ignoring case) and does not end in
      white space. */
  lemma RemoveUndoesAdd(s: string, name: string)
    requires IsWordName(name)
    requires s == "" || !IsWhite(s[|s| - 1])
    requires forall k :: 0 <= k < |s| ==> RemovalAt(s, name, k).None?
    ensures RemoveFrom(AddedClass(s, name), name, 0) == s
  {
    NoRemovalNoClass(s, name);
    if s == "" {
      assert AddedClass(s, name) == name;
      RemoveNameAlone(name);
    } else {
      var t := s + " " + name;
      assert AddedClass(s, name) == t;
      forall k | 0 <= k < |s|
        ensures RemovalAt(t, name, k).None?
      {
        NoNewMatchBefore(s, name, k);
      }
      RemoveCopies(t, name, 0, |s|);
      assert t[0..|s|] == s;
      RemoveAppendedName(s, name);
    }
  }

  /** The pattern matches a word name in full, so removing it leaves nothing. */
  lemma RemoveNameAlone(name: string)
    requires IsWordName(name)
    ensures RemoveFrom(name, name, 0) == ""
  {
    assert name[0..|name|] == name;
    assert RemovalAt(name, name, 0) == Some(|name|);
  }

  /** The scan cuts " name" off the end of `s + " " + name`. */
  lemma RemoveAppendedName(s: string, name: string)
    requires IsWordName(name) && s != ""
    ensures RemoveFrom(s + " " + name, name, |s|) == ""
  {
    var t := s + " " + name;
    var q := |s| + 1;
    assert t[|s|] == ' ' && t[q] == name[0];
    assert WhiteEnd(t, q) == q;
    assert t[q..] == name;
    NameMatchesAfterWhite(t, name, |s|);
  }

  /** A word name that ends the string, after one white space character at
      p, is a match starting at p. */
  lemma NameMatchesAfterWhite(t: string, name: string, p: nat)
    requires IsWordName(name) && p + 1 + |name| == |t|
    requires IsWhite(t[p]) && t[p + 1..] == name
    ensures RemovalAt(t, name, p) == Some(|t|)
  {
    var q := p + 1;
    assert t[q] == name[0];
    assert WhiteEnd(t, q) == q;
    assert t[q..q + |name|] == name;
    assert SameFolded(t[q..q + |name|], name);
  }
}
