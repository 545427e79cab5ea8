/** The read-only text scan `extract_json_value` (main/main.c) and the C
    library behaviour it relies on: `strstr` (first occurrence), the NUL
    terminator of a C string, and `atoi` on a run of decimal digits. */
module JsonScan {

  datatype Option<T> = None | Some(value: T)

  /** The C string held in a buffer: everything before the first NUL. */
  function CString(s: string): (r: string)
    ensures |r| <= |s| && r == s[..|r|]
    ensures '\0' !in r
    ensures |r| < |s| ==> s[|r|] == '\0'
  {
    if s == [] || s[0] == '\0' then [] else [s[0]] + CString(s[1..])
  }

  /** `needle` occurs in `hay` starting at index `j`. */
  predicate OccursAt(hay: string, needle: string, j: nat)
  {
    j + |needle| <= |hay| && hay[j..j + |needle|] == needle
  }

  /** `strstr` from index `i` on: the first index at or after `i` where the needle occurs. */
  function FindFrom(hay: string, needle: string, i: nat): (r: Option<nat>)
    requires i <= |hay|
    ensures r.Some? ==> i <= r.value && OccursAt(hay, needle, r.value)
    ensures r.Some? ==> forall j :: i <= j < r.value ==> !OccursAt(hay, needle, j)
    ensures r.None? ==> forall j :: i <= j ==> !OccursAt(hay, needle, j)
    decreases |hay| - i
  {
    if i + |needle| > |hay| then None
    else if hay[i..i + |needle|] == needle then Some(i)
    else FindFrom(hay, needle, i + 1)
  }

  /** `strstr(hay, needle)`: the first occurrence, or none. */
  function Find(hay: string, needle: string): Option<nat>
  {
    FindFrom(hay, needle, 0)
  }

  /** `strstr(hay, needle) != NULL`. */
  predicate Contains(hay: string, needle: string)
  {
    Find(hay, needle).Some?
  }

  predicate IsDigit(c: char)
  {
    '0' <= c <= '9'
  }

  predicate IsBlank(c: char)
  {
    c == ' ' || c == '\t'
  }

  /** The first index at or after `i` that does not hold a space or a tab. */
  function SkipBlanks(s: string, i: nat): (k: nat)
    requires i <= |s|
    ensures i <= k <= |s|
    ensures forall j :: i <= j < k ==> IsBlank(s[j])
    ensures k < |s| ==> !IsBlank(s[k])
    decreases |s| - i
  {
    if i < |s| && IsBlank(s[i]) then SkipBlanks(s, i + 1) else i
  }

  /** The end of the run of decimal digits that starts at `i`. */
  function DigitRunEnd(s: string, i: nat): (k: nat)
    requires i <= |s|
    ensures i <= k <= |s|
    ensures forall j :: i <= j < k ==> IsDigit(s[j])
    ensures k < |s| ==> !IsDigit(s[k])
    decreases |s| - i
  {
    if i < |s| && IsDigit(s[i]) then DigitRunEnd(s, i + 1) else i
  }

  function DigitValue(c: char): nat
    requires IsDigit(c)
  {
    (c as int) - ('0' as int)
  }

  /** The decimal value of a digit string, most significant digit first, as
      `atoi` accumulates it. */
  function DigitsValue(ds: string): nat
    requires forall j :: 0 <= j < |ds| ==> IsDigit(ds[j])
  {
    if ds == [] then 0
    else DigitsValue(ds[..|ds| - 1]) * 10 + DigitValue(ds[|ds| - 1])
  }

  /** A key between double quotes, as the command path searches for it. */
  function Quoted(key: string): string
  {
    "\"" + key + "\""
  }

  /** The search pattern `"\"%s\":"` that `extract_json_value` builds. */
  function Pattern(key: string): string
  {
    "\"" + key + "\":"
  }

  /** What `extract_json_value(json, key)` returns: -1 when `"key":` is absent
      or the first character after the colon and any blanks is not a digit;
      otherwise the value of the leading digit run. */
  function JsonValue(json: string, key: string): int
  {
    match Find(json, Pattern(key))
    case None => -1
    case Some(p) =>
      var v := SkipBlanks(json, p + |Pattern(key)|);
      if v < |json| && IsDigit(json[v]) then DigitsValue(json[v..DigitRunEnd(json, v)]) else -1
  }

  /** `extract_json_value`: locate the pattern, skip blanks with a loop, then
      read the digit run. */
  method ExtractJsonValue(json: string, key: string) returns (value: int)
    ensures value == JsonValue(json, key)
    ensures value >= -1
    ensures value == -1 <==> (!Contains(json, Pattern(key)) ||
                              var v := SkipBlanks(json, Find(json, Pattern(key)).value + |Pattern(key)|);
                              v == |json| || !IsDigit(json[v]))
  {
    var pattern := Pattern(key);
    var found := Find(json, pattern);
    if found.None? {
      return -1;
    }
    var pos := found.value + |pattern|;
    ghost var start := pos;
    while pos < |json| && (json[pos] == ' ' || json[pos] == '\t')
      invariant start <= pos <= |json|
      invariant SkipBlanks(json, start) == SkipBlanks(json, pos)
      decreases |json| - pos
    {
      pos := pos + 1;
    }
    if pos < |json| && '0' <= json[pos] <= '9' {
      value := DigitsValue(json[pos..DigitRunEnd(json, pos)]);
    } else {
      value := -1;
    }
  }

  /** The decimal text of a natural number, without leading zeros. */
  function NatToDigits(n: nat): (ds: string)
    ensures |ds| >= 1
    ensures forall j :: 0 <= j < |ds| ==> IsDigit(ds[j])
  {
    var d := [((n % 10) + 48) as char];
    if n < 10 then d else NatToDigits(n / 10) + d
  }

  /** Reading back the text of `n` gives `n`. */
  lemma {:induction false} DigitsRoundTrip(n: nat)
    ensures DigitsValue(NatToDigits(n)) == n
  {
    var ds := NatToDigits(n);
    if n >= 10 {
      DigitsRoundTrip(n / 10);
      assert ds[..|ds| - 1] == NatToDigits(n / 10);
    }
  }

  /** No occurrence before `|prefix|` of the pattern in `prefix + pattern`: the
      pattern written right after `prefix` is the first one. */
  predicate FirstAfter(prefix: string, pattern: string)
  {
    forall j :: 0 <= j < |prefix| ==> !OccursAt(prefix + pattern, pattern, j)
  }

  lemma FindLocates(prefix: string, pattern: string, rest: string)
    requires FirstAfter(prefix, pattern)
    ensures Find(prefix + pattern + rest, pattern) == Some(|prefix|)
  {
    var hay := prefix + pattern + rest;
    assert OccursAt(hay, pattern, |prefix|) by {
      assert hay[|prefix|..|prefix| + |pattern|] == pattern;
    }
    forall j | 0 <= j < |prefix|
      ensures !OccursAt(hay, pattern, j)
    {
      if OccursAt(hay, pattern, j) {
        assert hay[j..j + |pattern|] == (prefix + pattern)[j..j + |pattern|];
        assert OccursAt(prefix + pattern, pattern, j);
      }
    }
  }

  /** A message holding `"key":`, optional blanks and a run of digits `ds`,
      followed by anything that does not start with a digit, yields the value
      of `ds` -- provided the key does not already occur earlier. */
  lemma JsonValueOfDigits(prefix: string, key: string, blanks: string, ds: string, suffix: string)
    requires FirstAfter(prefix, Pattern(key))
    requires forall j :: 0 <= j < |blanks| ==> IsBlank(blanks[j])
    requires |ds| >= 1 && forall j :: 0 <= j < |ds| ==> IsDigit(ds[j])
    requires suffix == [] || !IsDigit(suffix[0])
    ensures JsonValue(prefix + Pattern(key) + blanks + ds + suffix, key) == DigitsValue(ds)
  {
    var head := prefix + Pattern(key);
    var tail := blanks + ds + suffix;
    ConcatAssociates(head + blanks, ds, suffix);
    ConcatAssociates(head, blanks, ds + suffix);
    ConcatAssociates(blanks, ds, suffix);
    FindLocates(prefix, Pattern(key), tail);
    Layout(head, blanks, ds, suffix);
    ScanDigits(head + tail, key, |prefix|, |head| + |blanks|, |head| + |blanks| + |ds|);
  }

  /** Where the blanks and the digits of `head + blanks + ds + suffix` lie. */
  lemma Layout(head: string, blanks: string, ds: string, suffix: string)
    requires forall j :: 0 <= j < |blanks| ==> IsBlank(blanks[j])
    requires |ds| >= 1 && forall j :: 0 <= j < |ds| ==> IsDigit(ds[j])
    requires suffix == [] || !IsDigit(suffix[0])
    ensures var json := head + (blanks + ds + suffix);
            var v := |head| + |blanks|;
            var e := v + |ds|;
            && e <= |json|
            && (forall j :: |head| <= j < v ==> IsBlank(json[j]))
            && (forall j :: v <= j < e ==> IsDigit(json[j]))
            && (e == |json| || !IsDigit(json[e]))
            && json[v..e] == ds
  {
    var json := head + (blanks + ds + suffix);
    var v := |head| + |blanks|;
    var e := v + |ds|;
    assert forall j :: |head| <= j < v ==> json[j] == blanks[j - |head|];
    assert forall j :: v <= j < e ==> json[j] == ds[j - v];
    assert e < |json| ==> json[e] == suffix[0];
    assert json[v..e] == ds;
  }

  /** Once the pattern is found at `p`, followed by blanks up to `v` and by
      the digit run `v..e`, the value is that of the run. */
  lemma ScanDigits(json: string, key: string, p: nat, v: nat, e: nat)
    requires Find(json, Pattern(key)) == Some(p)
    requires p + |Pattern(key)| <= v < e <= |json|
    requires forall j :: p + |Pattern(key)| <= j < v ==> IsBlank(json[j])
    requires forall j :: v <= j < e ==> IsDigit(json[j])
    requires e == |json| || !IsDigit(json[e])
    ensures JsonValue(json, key) == DigitsValue(json[v..e])
  {
    SkipBlanksStops(json, p + |Pattern(key)|, v);
    DigitRunEndStops(json, v, e);
  }

  /** Digits from `i` up to a non-digit or the end at `k` form the run. */
  lemma {:induction false} DigitRunEndStops(s: string, i: nat, k: nat)
    requires i <= k <= |s|
    requires forall j :: i <= j < k ==> IsDigit(s[j])
    requires k == |s| || !IsDigit(s[k])
    ensures DigitRunEnd(s, i) == k
    decreases k - i
  {
    if i < k {
      DigitRunEndStops(s, i + 1, k);
    }
  }

  /** Concatenation is associative; stated once so that a proof can regroup
      a long concatenation without the solver searching for the grouping. */
  lemma ConcatAssociates<T>(a: seq<T>, b: seq<T>, c: seq<T>)
    ensures (a + b) + c == a + (b + c)
  {
  }

  /** Round trip: a message holding `"key":`, optional blanks and the decimal
      text of `n`, followed by anything that does not start with a digit,
      yields `n` -- provided the key does not already occur earlier. */
  lemma JsonValueRoundTrip(prefix: string, key: string, blanks: string, n: nat, suffix: string)
    requires FirstAfter(prefix, Pattern(key))
    requires forall j :: 0 <= j < |blanks| ==> IsBlank(blanks[j])
    requires suffix == [] || !IsDigit(suffix[0])
    ensures JsonValue(prefix + Pattern(key) + blanks + NatToDigits(n) + suffix, key) == n
  {
    JsonValueOfDigits(prefix, key, blanks, NatToDigits(n), suffix);
    DigitsRoundTrip(n);
  }

  /** An occurrence anywhere means `strstr` finds one. */
  lemma OccursContains(hay: string, needle: string, j: nat)
    requires OccursAt(hay, needle, j)
    ensures Contains(hay, needle)
  {
  }

  /** A message holding `"key":` and then, after optional blanks, a character
      that is neither a blank nor a digit yields -1 -- provided the key does
      not already occur earlier. The quoted key itself is present, so the
      command path still acts on it. */
  lemma JsonValueNotNumber(prefix: string, key: string, blanks: string, c: char, suffix: string)
    requires FirstAfter(prefix, Pattern(key))
    requires forall j :: 0 <= j < |blanks| ==> IsBlank(blanks[j])
    requires !IsDigit(c) && !IsBlank(c)
    ensures JsonValue(prefix + Pattern(key) + blanks + [c] + suffix, key) == -1
    ensures Contains(prefix + Pattern(key) + blanks + [c] + suffix, Quoted(key))
  {
    var json := prefix + Pattern(key) + blanks + [c] + suffix;
    assert json == prefix + Pattern(key) + (blanks + [c] + suffix);
    FindLocates(prefix, Pattern(key), blanks + [c] + suffix);
    var start := |prefix| + |Pattern(key)|;
    var v := start + |blanks|;
    assert forall j :: start <= j < v ==> json[j] == blanks[j - start];
    assert json[v] == c;
    assert SkipBlanks(json, start) == v by {
      SkipBlanksStops(json, start, v);
    }
    var quoted := Quoted(key);
    assert json[|prefix|..|prefix| + |quoted|] == quoted;
    OccursContains(json, quoted, |prefix|);
  }

  /** Blanks from `i` up to a non-blank at `k` are skipped exactly. */
  lemma {:induction false} SkipBlanksStops(s: string, i: nat, k: nat)
    requires i <= k < |s|
    requires forall j :: i <= j < k ==> IsBlank(s[j])
    requires !IsBlank(s[k])
    ensures SkipBlanks(s, i) == k
    decreases k - i
  {
    if i < k {
      SkipBlanksStops(s, i + 1, k);
    }
  }
}
