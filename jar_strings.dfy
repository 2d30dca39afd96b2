/**
 * The pure string computations of InsideJarClassLoader.definePackage: the package
 * name of a class, the name of the nested jar in a code-source location, and the
 * case-insensitive test of the manifest's Sealed attribute.
 */
module JarStrings {
  import opened Wrappers

  /** Java's String.lastIndexOf(char): the index of the last c in s, or -1. */
  function LastIndexOf(s: string, c: char): (r: int)
    ensures -1 <= r < |s|
    ensures r == -1 <==> c !in s
    ensures r >= 0 ==> s[r] == c && c !in s[r + 1..]
  {
    if |s| == 0 then -1
    else if s[|s| - 1] == c then |s| - 1
    else LastIndexOf(s[..|s| - 1], c)
  }

  /** The last occurrence is the only one with no further occurrence after it. */
  lemma LastIndexOfIsUnique(s: string, c: char, i: int)
    requires 0 <= i < |s| && s[i] == c && c !in s[i + 1..]
    ensures LastIndexOf(s, c) == i
  {
  }

  /**
   * The package of a binary class name: the text before the last '.', or ""
   * for a class in the unnamed package.
   */
  function PackageName(className: string): (p: string)
    ensures '.' !in className ==> p == ""
    ensures '.' in className ==>
      && |p| < |className|
      && className[..|p|] == p
      && className[|p|] == '.'
      && '.' !in className[|p| + 1..]
  {
    if '.' in className then className[..LastIndexOf(className, '.')] else ""
  }

  /** Splitting a qualified name at its last '.' gives back the package it was built from. */
  lemma {:induction false} PackageNameOfQualified(pkg: string, simpleName: string)
    requires '.' !in simpleName
    ensures PackageName(pkg + "." + simpleName) == pkg
  {
    var s := pkg + "." + simpleName;
    assert s[|pkg|] == '.';
    assert s[|pkg| + 1..] == simpleName;
    LastIndexOfIsUnique(s, '.', |pkg|);
    assert s[..|pkg|] == pkg;
  }

  /** Every class name is its package, a '.', and a simple name without '.'. */
  lemma PackageNameSplits(className: string)
    requires '.' in className
    ensures exists simpleName :: '.' !in simpleName && className == PackageName(className) + "." + simpleName
  {
    var p := PackageName(className);
    var simpleName := className[|p| + 1..];
    assert className == p + "." + simpleName;
  }

  /**
   * The jar name of a nested-jar location, `url.substring(url.lastIndexOf("!") + 2)`:
   * the text after the last '!' and the one separator character that follows it.
   * None where Java's substring throws StringIndexOutOfBoundsException.
   */
  function JarName(url: string): (r: Option<string>)
    ensures r.None? <==> url == [] || url[|url| - 1] == '!'
    ensures r.Some? ==> |r.value| < |url| && url[|url| - |r.value|..] == r.value && '!' !in r.value
    ensures r.Some? && '!' in url ==> |r.value| + 2 <= |url| && url[|url| - |r.value| - 2] == '!'
    ensures r.Some? && '!' in url ==> '!' !in url[|url| - |r.value| - 1..]
    ensures r.Some? && '!' !in url ==> r.value == url[1..]
  {
    var begin := LastIndexOf(url, '!') + 2;
    if begin <= |url| then Some(url[begin..]) else None
  }

  /** The location `outer!/jar` of an entry in a nested jar yields exactly `jar`. */
  lemma {:induction false} JarNameOfNestedLocation(outer: string, separator: char, jar: string)
    requires separator != '!' && '!' !in jar
    ensures JarName(outer + "!" + [separator] + jar) == Some(jar)
  {
    var url := outer + "!" + [separator] + jar;
    assert url[|outer|] == '!';
    assert url[|outer| + 1..] == [separator] + jar;
    LastIndexOfIsUnique(url, '!', |outer|);
    assert url[|outer| + 2..] == jar;
  }

  /** Character.toUpperCase, restricted to ASCII letters. */
  function ToUpperAscii(c: char): char {
    if 'a' <= c <= 'z' then (c as int - 'a' as int + 'A' as int) as char else c
  }

  /** Character.toLowerCase, restricted to ASCII letters. */
  function ToLowerAscii(c: char): char {
    if 'A' <= c <= 'Z' then (c as int - 'A' as int + 'a' as int) as char else c
  }

  /** The per-character test of String.regionMatches(ignoreCase = true, ...). */
  predicate CharEqualsIgnoreCase(a: char, b: char) {
    || a == b
    || ToUpperAscii(a) == ToUpperAscii(b)
    || ToLowerAscii(ToUpperAscii(a)) == ToLowerAscii(ToUpperAscii(b))
  }

  /** String.equalsIgnoreCase on a non-null argument. */
  predicate EqualsIgnoreCase(a: string, b: string): (r: bool)
    ensures r ==> |a| == |b|
    ensures a == b ==> r
  {
    |a| == |b| && (a == [] || (CharEqualsIgnoreCase(a[0], b[0]) && EqualsIgnoreCase(a[1..], b[1..])))
  }

  /** The string with every ASCII capital replaced by its small letter. */
  function Lowered(s: string): (r: string)
    ensures |r| == |s|
    ensures forall i :: 0 <= i < |s| ==> r[i] == ToLowerAscii(s[i])
  {
    seq(|s|, i requires 0 <= i < |s| => ToLowerAscii(s[i]))
  }

  /** On ASCII letters, the two-way case test is a comparison of lower-case forms. */
  lemma CharEqualsIgnoreCaseIffLowered(x: char, y: char)
    ensures CharEqualsIgnoreCase(x, y) <==> ToLowerAscii(x) == ToLowerAscii(y)
  {
  }

  /** Two strings are equal ignoring case exactly when their lower-case forms are equal. */
  lemma {:induction false} EqualsIgnoreCaseIffLowered(a: string, b: string)
    ensures EqualsIgnoreCase(a, b) <==> |a| == |b| && Lowered(a) == Lowered(b)
  {
    if |a| == |b| && a != [] {
      EqualsIgnoreCaseIffLowered(a[1..], b[1..]);
      CharEqualsIgnoreCaseIffLowered(a[0], b[0]);
      assert Lowered(a) == [ToLowerAscii(a[0])] + Lowered(a[1..]);
      assert Lowered(b) == [ToLowerAscii(b[0])] + Lowered(b[1..]);
    }
  }

  /**
   * `"true".equalsIgnoreCase(v)` for a value that may be null: the sealed test of
   * definePackage, and Boolean.getBoolean on a property value.
   */
  predicate IsTrueIgnoringCase(v: Option<string>): (r: bool)
    ensures r ==> v.Some? && |v.value| == 4
    ensures v == Some("true") ==> r
  {
    v.Some? && EqualsIgnoreCase("true", v.value)
  }

  /** The sealed test accepts exactly the spellings of "true" in any mix of cases. */
  lemma TrueIgnoringCaseIff(v: Option<string>)
    ensures IsTrueIgnoringCase(v) <==> v.Some? && Lowered(v.value) == "true"
  {
    if v.Some? {
      EqualsIgnoreCaseIffLowered("true", v.value);
      assert Lowered("true") == "true";
    }
  }
}
