/**
 The two input validators of the upload handler. Each is a JavaScript regular
 expression of the shape ^[class]+$ : a character class, repeated one or more
 times, anchored at both ends. The identifier class is [A-Za-z0-9_\-@.]; the
 directory class is [A-Za-z0-9] with the case-insensitive flag.

 A character class is modelled as a list of inclusive character ranges, and
 the anchored "one or more" match as a recursive matcher over the string.
 */
module Validators {

  /** An inclusive range lo-hi inside a bracketed character class. */
  datatype CharRange = CharRange(lo: char, hi: char)

  type CharClass = seq<CharRange>

  /** [A-Za-z0-9_\-@.] : the identifier class (the escaped '-' and '.' are literals). */
  const IdentifierClass: CharClass :=
    [CharRange('A', 'Z'), CharRange('a', 'z'), CharRange('0', '9'),
     CharRange('_', '_'), CharRange('-', '-'), CharRange('@', '@'), CharRange('.', '.')]

  /** [A-Za-z0-9] : the directory class. */
  const DirectoryClass: CharClass :=
    [CharRange('A', 'Z'), CharRange('a', 'z'), CharRange('0', '9')]

  /** Does the bracketed class contain c? Ranges are tried left to right. */
  function InClass(cls: CharClass, c: char): (r: bool)
    ensures r <==> exists k :: 0 <= k < |cls| && cls[k].lo <= c <= cls[k].hi
  {
    if cls == [] then false
    else (cls[0].lo <= c <= cls[0].hi) || InClass(cls[1..], c)
  }

  /**
   Canonicalisation used by a case-insensitive, non-unicode JavaScript regular
   expression: a character is upper-cased, except that a character outside ASCII
   never canonicalises to an ASCII one. Against an all-ASCII class only the
   ASCII letters matter, so the model upper-cases 'a'..'z' and leaves every
   other character alone.
   */
  function Canonicalize(c: char): (r: char)
    ensures c as int < 128 <==> r as int < 128
    ensures IsAsciiLetter(r) ==> IsAsciiLetter(c) && (r == c || r as int == c as int - 32)
  {
    if 'a' <= c <= 'z' then (c as int - 32) as char else c
  }

  predicate IsAsciiLetter(c: char)
  {
    ('A' <= c <= 'Z') || ('a' <= c <= 'z')
  }

  /** The other-case partner of an ASCII letter; every other character is its own partner. */
  function SwapCase(c: char): char
  {
    if 'a' <= c <= 'z' then (c as int - 32) as char
    else if 'A' <= c <= 'Z' then (c as int + 32) as char
    else c
  }

  /**
   Class membership under the /i flag: c matches when some character of the
   class has the same canonical form. For ASCII, the characters with the same
   canonical form as c are c itself and SwapCase(c).
   */
  function InClassIgnoreCase(cls: CharClass, c: char): (r: bool)
    ensures r <==> exists d :: InClass(cls, d) && Canonicalize(d) == Canonicalize(c)
  {
    SameCanonicalForm(c);
    InClass(cls, c) || InClass(cls, SwapCase(c))
  }

  /** The characters sharing c's canonical form are c and its other-case partner. */
  lemma SameCanonicalForm(c: char)
    ensures Canonicalize(SwapCase(c)) == Canonicalize(c)
    ensures forall d :: Canonicalize(d) == Canonicalize(c) ==> d == c || d == SwapCase(c)
  {
  }

  /** Class membership with or without the /i flag. */
  function Member(cls: CharClass, ignoreCase: bool, c: char): bool
  {
    if ignoreCase then InClassIgnoreCase(cls, c) else InClass(cls, c)
  }

  /**
   The anchored match ^[cls]+$ of the whole string s: at least one character,
   and every character in the class. The matcher consumes one character and
   either stops at the end anchor or repeats.
   */
  function FullMatchPlus(cls: CharClass, ignoreCase: bool, s: string): (r: bool)
    ensures r <==> |s| > 0 && forall i :: 0 <= i < |s| ==> Member(cls, ignoreCase, s[i])
  {
    if s == [] then false
    else Member(cls, ignoreCase, s[0]) && (|s| == 1 || FullMatchPlus(cls, ignoreCase, s[1..]))
  }

  /** The identifier check /^[A-Za-z0-9_\-@\.]+$/ . */
  predicate ValidIdentifier(s: string)
  {
    FullMatchPlus(IdentifierClass, false, s)
  }

  /** The directory check /^[A-Za-z0-9]+$/i . */
  predicate ValidDirectory(s: string)
  {
    FullMatchPlus(DirectoryClass, true, s)
  }

  /** Reference definitions of the two alphabets, written as plain comparisons. */
  predicate IsAsciiAlphanumeric(c: char)
  {
    ('A' <= c <= 'Z') || ('a' <= c <= 'z') || ('0' <= c <= '9')
  }

  predicate IsIdentifierChar(c: char)
  {
    IsAsciiAlphanumeric(c) || c == '_' || c == '-' || c == '@' || c == '.'
  }

  lemma IdentifierClassExact(c: char)
    ensures InClass(IdentifierClass, c) <==> IsIdentifierChar(c)
  {
    if IsIdentifierChar(c) {
      var k := if 'A' <= c <= 'Z' then 0 else if 'a' <= c <= 'z' then 1 else if '0' <= c <= '9' then 2
                else if c == '_' then 3 else if c == '-' then 4 else if c == '@' then 5 else 6;
      assert IdentifierClass[k].lo <= c <= IdentifierClass[k].hi;
    }
  }

  lemma DirectoryClassExact(c: char)
    ensures InClass(DirectoryClass, c) <==> IsAsciiAlphanumeric(c)
  {
    if IsAsciiAlphanumeric(c) {
      var k := if 'A' <= c <= 'Z' then 0 else if 'a' <= c <= 'z' then 1 else 2;
      assert DirectoryClass[k].lo <= c <= DirectoryClass[k].hi;
    }
  }

  /** The /i flag on the directory check changes nothing: the class already holds both cases. */
  lemma DirectoryIgnoreCaseAddsNothing(c: char)
    ensures Member(DirectoryClass, true, c) <==> IsAsciiAlphanumeric(c)
  {
    DirectoryClassExact(c);
    DirectoryClassExact(SwapCase(c));
  }

  /** The identifier is accepted iff it is non-empty and made only of A-Z, a-z, 0-9, '_', '-', '@', '.'. */
  lemma IdentifierAcceptsExactly(s: string)
    ensures ValidIdentifier(s) <==> |s| > 0 && forall i :: 0 <= i < |s| ==> IsIdentifierChar(s[i])
  {
    forall i | 0 <= i < |s| ensures Member(IdentifierClass, false, s[i]) <==> IsIdentifierChar(s[i]) {
      IdentifierClassExact(s[i]);
    }
  }

  /** The directory is accepted iff it is non-empty and made only of ASCII letters and digits. */
  lemma DirectoryAcceptsExactly(s: string)
    ensures ValidDirectory(s) <==> |s| > 0 && forall i :: 0 <= i < |s| ==> IsAsciiAlphanumeric(s[i])
  {
    forall i | 0 <= i < |s| ensures Member(DirectoryClass, true, s[i]) <==> IsAsciiAlphanumeric(s[i]) {
      DirectoryIgnoreCaseAddsNothing(s[i]);
    }
  }

  /**
   An accepted directory is a single path component that cannot climb: it has
   no separator and no dot, so it is neither "." nor "..".
   */
  lemma DirectoryIsPlainComponent(s: string)
    requires ValidDirectory(s)
    ensures '/' !in s && '\\' !in s && '.' !in s
  {
    DirectoryAcceptsExactly(s);
  }

  /** Every accepted directory name would also be accepted as an identifier. */
  lemma DirectoryIsIdentifier(s: string)
    requires ValidDirectory(s)
    ensures ValidIdentifier(s)
  {
    DirectoryAcceptsExactly(s);
    IdentifierAcceptsExactly(s);
  }

  /** An accepted identifier has no path separator, but "." and ".." do get through. */
  lemma IdentifierHasNoSeparator(s: string)
    requires ValidIdentifier(s)
    ensures '/' !in s && '\\' !in s
  {
    IdentifierAcceptsExactly(s);
  }

  lemma EmailIdentifierAccepted()
    ensures ValidIdentifier("alice@example.com")
  {
    var s := "alice@example.com";
    forall i | 0 <= i < |s| ensures IsIdentifierChar(s[i]) {
      assert s[i] in "abcdefghijklmnopqrstuvwxyz@.";
    }
    IdentifierAcceptsExactly(s);
  }

  /** "." and ".." pass the identifier check: it does not stop a relative path segment. */
  lemma DotIdentifiersAccepted()
    ensures ValidIdentifier(".") && ValidIdentifier("..")
  {
    IdentifierAcceptsExactly(".");
    IdentifierAcceptsExactly("..");
  }

  lemma SlashIdentifierRejected()
    ensures !ValidIdentifier("a/b") && !ValidIdentifier("")
  {
    IdentifierAcceptsExactly("a/b");
    assert !IsIdentifierChar("a/b"[1]);
  }

  lemma PlainDirectoryAccepted()
    ensures ValidDirectory("build42") && ValidDirectory("BUILD42")
  {
    var lower, upper := "build42", "BUILD42";
    forall i | 0 <= i < 7 ensures IsAsciiAlphanumeric(lower[i]) && IsAsciiAlphanumeric(upper[i]) {
      assert lower[i] in "bdilu24" && upper[i] in "BDILU24";
    }
    DirectoryAcceptsExactly(lower);
    DirectoryAcceptsExactly(upper);
  }

  /** A climbing path and a name with a dash are both refused as directories. */
  lemma TraversalDirectoryRejected()
    ensures !ValidDirectory("../etc") && !ValidDirectory("build-42") && !ValidDirectory("..")
  {
    DirectoryAcceptsExactly("../etc");
    assert !IsAsciiAlphanumeric("../etc"[0]);
    DirectoryAcceptsExactly("build-42");
    assert !IsAsciiAlphanumeric("build-42"[5]);
    DirectoryAcceptsExactly("..");
    assert !IsAsciiAlphanumeric(".."[0]);
  }
}
