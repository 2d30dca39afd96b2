/**
 * The process-wide system properties as Bootstrap uses them: the diagnostic
 * timestamps it stores under its namespace prefix, the decimal text of a long
 * (String.valueOf), and the two boolean switches read with Boolean.getBoolean.
 */
module SystemProperties {
  import opened Wrappers
  import opened JarStrings

  type Properties = map<string, string>

  /** Prefix of every diagnostic property Bootstrap writes. */
  const Namespace: string := "com.peergreen.bootstrap:"

  /** When true, terminate ends the process with System.exit. */
  const SystemExitEnabled: string := "com.peergreen.bootstrap.system.exit"

  /** When true, leftover threads are only reported, not stopped. */
  const ReportOnlyOnStop: string := "com.peergreen.bootstrap.thread.check.reportonly"

  const Begin: string := "begin"
  const ScanBegin: string := "scan.begin"
  const ScanEnd: string := "scan.end"
  const MainInvoke: string := "main.invoke"

  /** The keys terminate clears, in the order it clears them. */
  const TimestampKeys: seq<string> := [Begin, ScanBegin, ScanEnd, MainInvoke]

  /** The property name under which Bootstrap stores `key`. */
  function Key(key: string): string {
    Namespace + key
  }

  /** The property names of a list of keys. */
  function KeysOf(keys: seq<string>): set<string> {
    set k | k in keys :: Key(k)
  }

  /** Distinct keys are stored under distinct property names. */
  lemma KeyInjective(a: string, b: string)
    ensures Key(a) == Key(b) <==> a == b
  {
    if Key(a) == Key(b) {
      assert a == Key(a)[|Namespace|..];
      assert b == Key(b)[|Namespace|..];
    }
  }

  /**
   * Neither switch lives under the namespace: their 24th character is '.',
   * where every namespaced name has ':'.
   */
  lemma {:induction false} SwitchesAreNotNamespaced(key: string)
    ensures Key(key) != SystemExitEnabled && Key(key) != ReportOnlyOnStop
  {
    assert Key(key)[23] == ':';
    assert SystemExitEnabled[23] == '.';
    assert ReportOnlyOnStop[23] == '.';
  }

  /** System.getProperty: the value of `name`, or null. */
  function Get(props: Properties, name: string): Option<string> {
    if name in props then Some(props[name]) else None
  }

  /** Boolean.getBoolean: the property exists and equals "true" ignoring case. */
  predicate GetBoolean(props: Properties, name: string): (r: bool)
    ensures r <==> name in props && Lowered(props[name]) == "true"
  {
    TrueIgnoringCaseIff(Get(props, name));
    IsTrueIgnoringCase(Get(props, name))
  }

  /** Writing or clearing namespaced properties never changes what a switch reads. */
  lemma {:induction false} SwitchesSurviveBootstrapKeys(props: Properties, props': Properties, name: string)
    requires name == SystemExitEnabled || name == ReportOnlyOnStop
    requires forall p :: p !in KeysOf(TimestampKeys) ==> Get(props, p) == Get(props', p)
    ensures GetBoolean(props, name) == GetBoolean(props', name)
  {
    forall k | k in TimestampKeys
      ensures Key(k) != name
    {
      SwitchesAreNotNamespaced(k);
    }
    assert name !in KeysOf(TimestampKeys);
  }

  /** The properties after clearBootstrapProperties(keys). */
  function Cleared(props: Properties, keys: seq<string>): Properties {
    props - KeysOf(keys)
  }

  /** Clearing removes exactly the namespaced keys and keeps every other property. */
  lemma ClearedExactly(props: Properties, keys: seq<string>, name: string)
    ensures name in Cleared(props, keys) <==> name in props && forall k :: k in keys ==> Key(k) != name
    ensures name in Cleared(props, keys) ==> Cleared(props, keys)[name] == props[name]
  {
  }

  /**
   * Clearing the timestamps after any number of timestamp writes leaves the
   * properties as they were before the writes, less any earlier timestamps.
   */
  lemma ClearingUndoesTimestamps(before: Properties, after: Properties)
    requires forall p :: p !in KeysOf(TimestampKeys) ==> Get(after, p) == Get(before, p)
    ensures Cleared(after, TimestampKeys) == before - KeysOf(TimestampKeys)
  {
    var lhs, rhs := Cleared(after, TimestampKeys), before - KeysOf(TimestampKeys);
    forall p
      ensures p in lhs <==> p in rhs
      ensures p in lhs ==> lhs[p] == rhs[p]
    {
      if p !in KeysOf(TimestampKeys) {
        assert Get(after, p) == Get(before, p);
      }
    }
  }

  /** A decimal digit as a character. */
  function DigitChar(d: nat): char
    requires d < 10
  {
    "0123456789"[d]
  }

  predicate IsDigit(c: char) {
    '0' <= c <= '9'
  }

  /** The value of a decimal digit character. */
  function DigitValue(c: char): (d: nat)
    requires IsDigit(c)
    ensures d < 10 && DigitChar(d) == c
  {
    c as int - '0' as int
  }

  /** The decimal digits of n, most significant first, with no leading zero. */
  function Digits(n: nat): (s: string)
    ensures |s| >= 1 && forall i :: 0 <= i < |s| ==> IsDigit(s[i])
    ensures s[0] == '0' ==> n == 0
  {
    if n < 10 then [DigitChar(n)] else Digits(n / 10) + [DigitChar(n % 10)]
  }

  /** String.valueOf(long): an optional '-' followed by the digits of the magnitude. */
  function DecimalString(n: int): (r: string)
    ensures |r| >= 1 && (r[0] == '-' <==> n < 0)
    ensures n >= 0 ==> AllDigits(r) && (r[0] == '0' ==> r == "0")
    ensures n < 0 ==> |r| >= 2 && AllDigits(r[1..]) && r[1] != '0'
  {
    if n < 0 then "-" + Digits(-n) else Digits(n)
  }

  predicate AllDigits(s: string) {
    forall i :: 0 <= i < |s| ==> IsDigit(s[i])
  }

  /** The value of a string of decimal digits. */
  function DigitsValue(s: string): nat
    requires AllDigits(s)
  {
    if s == [] then 0 else 10 * DigitsValue(s[..|s| - 1]) + DigitValue(s[|s| - 1])
  }

  /** Long.parseLong on what String.valueOf produces. */
  function ParseDecimal(s: string): Option<int> {
    if |s| >= 2 && s[0] == '-' && AllDigits(s[1..]) then Some(0 - DigitsValue(s[1..]))
    else if |s| >= 1 && AllDigits(s) then Some(DigitsValue(s))
    else None
  }

  lemma {:induction false} DigitsValueOfDigits(n: nat)
    ensures DigitsValue(Digits(n)) == n
  {
    if n >= 10 {
      DigitsValueOfDigits(n / 10);
      var s := Digits(n);
      assert s[..|s| - 1] == Digits(n / 10);
    }
  }

  /** A timestamp stored as a property reads back as the same number. */
  lemma {:induction false} DecimalStringRoundTrip(n: int)
    ensures ParseDecimal(DecimalString(n)) == Some(n)
  {
    var s := DecimalString(n);
    if n < 0 {
      DigitsValueOfDigits(-n);
      assert s[1..] == Digits(-n);
      assert AllDigits(s[1..]);
    } else {
      DigitsValueOfDigits(n);
      assert IsDigit(s[0]);
      assert AllDigits(s);
    }
  }
}
