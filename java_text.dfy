/**
 * The parts of java.lang.String and java.util.regex that the services rely on:
 * trim, "blank" (trim().isEmpty()), startsWith, contains, literal replace,
 * the character-class replaceAll used to clean an API key, the
 * "key=[^&]+" masking of a logged URI, String.join and equalsIgnoreCase.
 */
module JavaText {

  /** String.trim removes every leading and trailing char whose code is at most U+0020. */
  predicate IsTrimmable(c: char) {
    c <= ' '
  }

  function TrimStart(s: string): (r: string)
    ensures |r| <= |s| && r == s[|s| - |r|..]
    ensures r == [] || !IsTrimmable(r[0])
    ensures forall i :: 0 <= i < |s| - |r| ==> IsTrimmable(s[i])
    decreases |s|
  {
    if |s| > 0 && IsTrimmable(s[0]) then TrimStart(s[1..]) else s
  }

  function TrimEnd(s: string): (r: string)
    ensures |r| <= |s| && r == s[..|r|]
    ensures r == [] || !IsTrimmable(r[|r| - 1])
    ensures forall i :: |r| <= i < |s| ==> IsTrimmable(s[i])
    decreases |s|
  {
    if |s| > 0 && IsTrimmable(s[|s| - 1]) then TrimEnd(s[..|s| - 1]) else s
  }

  /** Java's String.trim(). */
  function Trim(s: string): string {
    TrimEnd(TrimStart(s))
  }

  /** The bounds of the slice that trim keeps. */
  lemma TrimBounds(s: string) returns (a: nat, b: nat)
    ensures a <= b <= |s| && Trim(s) == s[a..b]
    ensures forall i :: 0 <= i < a ==> IsTrimmable(s[i])
    ensures forall i :: b <= i < |s| ==> IsTrimmable(s[i])
  {
    var t := TrimStart(s);
    a := |s| - |t|;
    assert forall i :: 0 <= i < a ==> IsTrimmable(s[i]);
    var e := TrimEnd(t);
    b := a + |e|;
    assert Trim(s) == s[a..b] by {
      assert t == s[a..];
      assert e == t[..|e|];
      SliceOfSlice(s, a, |e|);
    }
    SuffixOfSlice(s, t, a, |e|);
  }

  lemma SliceOfSlice(s: string, a: nat, n: nat)
    requires a + n <= |s|
    ensures s[a..][..n] == s[a..a + n]
  {
  }

  /** What holds of the tail of a suffix slice holds of the same chars of the string. */
  lemma SuffixOfSlice(s: string, t: string, a: nat, n: nat)
    requires a <= |s| && t == s[a..] && n <= |t|
    requires forall j :: n <= j < |t| ==> IsTrimmable(t[j])
    ensures forall i :: a + n <= i < |s| ==> IsTrimmable(s[i])
  {
    forall i | a + n <= i < |s| ensures IsTrimmable(s[i]) {
      assert s[i] == t[i - a];
    }
  }

  /** The result of trim is the input with only trimmable chars cut from its two ends. */
  lemma TrimIsTrimmedSlice(s: string)
    ensures exists a, b :: (0 <= a <= b <= |s| && Trim(s) == s[a..b]
      && (forall i :: 0 <= i < a ==> IsTrimmable(s[i]))
      && (forall i :: b <= i < |s| ==> IsTrimmable(s[i])))
    ensures Trim(s) == [] || (!IsTrimmable(Trim(s)[0]) && !IsTrimmable(Trim(s)[|Trim(s)| - 1]))
  {
    var a, b := TrimBounds(s);
    assert 0 <= a <= b <= |s| && Trim(s) == s[a..b]
      && (forall i :: 0 <= i < a ==> IsTrimmable(s[i]))
      && (forall i :: b <= i < |s| ==> IsTrimmable(s[i]));
    TrimEndsVisible(s);
  }

  /** A trimmed string that is not empty starts and ends with a char above ' '. */
  lemma TrimEndsVisible(s: string)
    ensures Trim(s) == [] || (!IsTrimmable(Trim(s)[0]) && !IsTrimmable(Trim(s)[|Trim(s)| - 1]))
  {
    var t := TrimStart(s);
    var e := TrimEnd(t);
    if e != [] {
      assert e == t[..|e|];
      assert e[0] == t[0];
    }
  }

  /** `s.trim().isEmpty()`, the services' test for a missing body, key or text. */
  predicate IsBlank(s: string) {
    Trim(s) == []
  }

  /** A string is blank exactly when every char of it is trimmable. */
  lemma BlankIff(s: string)
    ensures IsBlank(s) <==> forall i :: 0 <= i < |s| ==> IsTrimmable(s[i])
  {
    var t := TrimStart(s);
    var cut := |s| - |t|;
    if IsBlank(s) {
      SuffixOfSlice(s, t, cut, 0);
    } else {
      assert t[0] == s[cut];
    }
  }

  /** Trimming twice is trimming once. */
  lemma TrimIdempotent(s: string)
    ensures Trim(Trim(s)) == Trim(s)
  {
    var t := Trim(s);
    TrimIsTrimmedSlice(s);
    assert TrimStart(t) == t;
    assert TrimEnd(t) == t;
  }

  predicate StartsWith(s: string, prefix: string) {
    |prefix| <= |s| && s[..|prefix|] == prefix
  }

  /** t occurs in s at offset k. */
  predicate OccursAt(s: string, t: string, k: int) {
    0 <= k <= |s| - |t| && s[k..k + |t|] == t
  }

  /** `s.contains(t)`. */
  predicate Contains(s: string, t: string) {
    exists k :: 0 <= k <= |s| && OccursAt(s, t, k)
  }

  lemma ContainsPrefix(a: string, b: string)
    ensures Contains(a + b, a)
  {
    assert OccursAt(a + b, a, 0);
  }

  lemma ContainsWithin(s: string, t: string, a: string, b: string)
    requires Contains(s, t)
    ensures Contains(a + s + b, t)
  {
    var k :| 0 <= k <= |s| && OccursAt(s, t, k);
    assert (a + s + b)[|a| + k..|a| + k + |t|] == s[k..k + |t|];
    assert OccursAt(a + s + b, t, |a| + k);
  }

  // ---------------------------------------------------------------
  // Literal replacement: String.replace(target, "")
  // ---------------------------------------------------------------

  /** `s.replace(pat, "")`: occurrences are found left to right and do not overlap. */
  function RemoveAll(s: string, pat: string): string
    requires |pat| > 0
    decreases |s|
  {
    if |s| == 0 then []
    else if StartsWith(s, pat) then RemoveAll(s[|pat|..], pat)
    else [s[0]] + RemoveAll(s[1..], pat)
  }

  /** Removal only deletes chars, so a string free of pat's first char is left as it is. */
  lemma {:induction false} RemoveAllAbsent(s: string, pat: string)
    requires |pat| > 0
    requires forall i :: 0 <= i < |s| ==> s[i] != pat[0]
    ensures RemoveAll(s, pat) == s
    decreases |s|
  {
    if |s| > 0 {
      if |pat| <= |s| {
        assert s[..|pat|][0] == s[0];
      }
      RemoveAllAbsent(s[1..], pat);
    }
  }

  /** A prefix free of pat's first char is kept, and removal goes on after it. */
  lemma {:induction false} RemoveAllAfterPlain(a: string, b: string, pat: string)
    requires |pat| > 0
    requires forall i :: 0 <= i < |a| ==> a[i] != pat[0]
    ensures RemoveAll(a + b, pat) == a + RemoveAll(b, pat)
    decreases |a|
  {
    if |a| > 0 {
      var s := a + b;
      if |pat| <= |s| {
        assert s[..|pat|][0] == a[0];
      }
      assert s[1..] == a[1..] + b;
      RemoveAllAfterPlain(a[1..], b, pat);
      assert RemoveAll(s, pat) == [a[0]] + RemoveAll(a[1..] + b, pat);
      assert a == [a[0]] + a[1..];
      assert [a[0]] + (a[1..] + RemoveAll(b, pat)) == a + RemoveAll(b, pat);
    } else {
      assert a + b == b && a + RemoveAll(b, pat) == RemoveAll(b, pat);
    }
  }

  /** A string shorter than the pattern holds no occurrence of it. */
  lemma {:induction false} RemoveAllShort(s: string, pat: string)
    requires 0 < |pat| && |s| < |pat|
    ensures RemoveAll(s, pat) == s
    decreases |s|
  {
    if |s| > 0 {
      RemoveAllShort(s[1..], pat);
    }
  }

  /** Every char of the result comes from the input. */
  lemma {:induction false} RemoveAllChars(s: string, pat: string)
    requires |pat| > 0
    ensures forall i :: 0 <= i < |RemoveAll(s, pat)| ==> RemoveAll(s, pat)[i] in s
    decreases |s|
  {
    if |s| > 0 {
      if StartsWith(s, pat) {
        RemoveAllChars(s[|pat|..], pat);
      } else {
        RemoveAllChars(s[1..], pat);
        var r := RemoveAll(s[1..], pat);
        assert RemoveAll(s, pat) == [s[0]] + r;
        forall i | 0 <= i < |[s[0]] + r| ensures ([s[0]] + r)[i] in s {
          if i > 0 {
            assert r[i - 1] in s[1..];
          }
        }
      }
    }
  }

  /** Three consecutive backquotes. */
  predicate HasFenceAt(s: string, i: int)
    requires 0 <= i
  {
    i + 3 <= |s| && s[i] == '`' && s[i + 1] == '`' && s[i + 2] == '`'
  }

  predicate HasFence(s: string) {
    exists i :: 0 <= i < |s| && HasFenceAt(s, i)
  }

  /** When s does not start with the fence, the result starts with s's first char. */
  lemma RemoveFenceHead(s: string)
    requires |s| > 0 && !StartsWith(s, "```")
    ensures RemoveAll(s, "```") == [s[0]] + RemoveAll(s[1..], "```")
  {
  }

  /** Without a fence at its start, s keeps its first char in front. */
  lemma RemoveFenceFirst(s: string)
    requires |s| > 0 && !StartsWith(s, "```")
    ensures |RemoveAll(s, "```")| > 0 && RemoveAll(s, "```")[0] == s[0]
  {
    RemoveFenceHead(s);
  }

  /** Starting with the fence is having a fence at position 0. */
  lemma FenceStart(s: string)
    ensures StartsWith(s, "```") <==> HasFenceAt(s, 0)
  {
    if |s| >= 3 {
      assert s[..3] == [s[0], s[1], s[2]];
    }
  }

  /** Removing fences from a string that does not start with one leaves no fence at position 0. */
  lemma NoFenceAtHead(s: string)
    requires |s| > 0 && !StartsWith(s, "```")
    ensures !HasFenceAt(RemoveAll(s, "```"), 0)
  {
    var t := s[1..];
    var r := RemoveAll(s, "```");
    RemoveFenceHead(s);
    FenceStart(s);
    assert r == [s[0]] + RemoveAll(t, "```");
    if s[0] == '`' && |t| > 0 {
      FenceStart(t);
      RemoveFenceFirst(t);
      assert r[1] == t[0];
      if t[0] == '`' {
        var u := t[1..];
        RemoveFenceHead(t);
        assert RemoveAll(t, "```") == [t[0]] + RemoveAll(u, "```");
        if |u| > 0 {
          assert u[0] == s[2];
          FenceStart(u);
          RemoveFenceFirst(u);
          assert r[2] == u[0];
        } else {
          assert |r| == 2;
        }
      }
    }
  }

  /**
   * After `replace("```", "")` no fence is left: the removed fences come out of
   * a run of backquotes left to right, leaving fewer than three of them.
   */
  lemma {:induction false} RemoveFencesLeavesNone(s: string)
    ensures !HasFence(RemoveAll(s, "```"))
    decreases |s|
  {
    if |s| == 0 {
    } else if StartsWith(s, "```") {
      RemoveFencesLeavesNone(s[3..]);
    } else {
      var t := s[1..];
      var rt := RemoveAll(t, "```");
      RemoveFencesLeavesNone(t);
      var r := RemoveAll(s, "```");
      assert r == [s[0]] + rt;
      forall i | 0 <= i < |r| ensures !HasFenceAt(r, i) {
        if i > 0 {
          assert HasFenceAt(r, i) ==> HasFenceAt(rt, i - 1);
        } else {
          NoFenceAtHead(s);
        }
      }
    }
  }

  /** A slice of a string without a fence has none either. */
  lemma NoFenceInSlice(s: string, a: nat, b: nat)
    requires a <= b <= |s| && !HasFence(s)
    ensures !HasFence(s[a..b])
  {
    var t := s[a..b];
    forall i | 0 <= i < |t| ensures !HasFenceAt(t, i) {
      assert HasFenceAt(t, i) ==> HasFenceAt(s, a + i);
    }
  }

  /** Trimming keeps a slice, so it cannot create a fence. */
  lemma TrimKeepsNoFence(s: string)
    requires !HasFence(s)
    ensures !HasFence(Trim(s))
  {
    var a, b := TrimBounds(s);
    NoFenceInSlice(s, a, b);
  }

  // ---------------------------------------------------------------
  // apiKey.replaceAll("[\\[\\]\\(\\)\\s]", "")
  // ---------------------------------------------------------------

  /** The regex class \s without UNICODE_CHARACTER_CLASS: [ \t\n\x0B\f\r]. */
  predicate IsRegexSpace(c: char) {
    c == ' ' || c == '\t' || c == '\n' || c == 11 as char || c == 12 as char || c == '\r'
  }

  /** A char of the class `[\[\]\(\)\s]`. */
  predicate IsKeyNoise(c: char) {
    c == '[' || c == ']' || c == '(' || c == ')' || IsRegexSpace(c)
  }

  function RemoveKeyNoise(s: string): (r: string)
    ensures forall i :: 0 <= i < |r| ==> !IsKeyNoise(r[i]) && r[i] in s
    ensures (forall i :: 0 <= i < |s| ==> !IsKeyNoise(s[i])) ==> r == s
    decreases |s|
  {
    if |s| == 0 then []
    else if IsKeyNoise(s[0]) then RemoveKeyNoise(s[1..])
    else [s[0]] + RemoveKeyNoise(s[1..])
  }

  /** Trimming a string free of noise, whose chars all come from `orig`, keeps both properties. */
  lemma TrimKeepsCleanChars(r: string, orig: string)
    requires forall i :: 0 <= i < |r| ==> !IsKeyNoise(r[i]) && r[i] in orig
    ensures forall i :: 0 <= i < |Trim(r)| ==> !IsKeyNoise(Trim(r)[i]) && Trim(r)[i] in orig
  {
    var a, b := TrimBounds(r);
    var k := Trim(r);
    forall i | 0 <= i < |k| ensures !IsKeyNoise(k[i]) && k[i] in orig {
      assert k[i] == r[a + i];
    }
  }

  // ---------------------------------------------------------------
  // uri.toString().replaceAll("key=[^&]+", "key=***")
  // ---------------------------------------------------------------

  const KeyParam := "key="
  const MaskedKey := "key=***"

  /** "key=" starts at position i. */
  predicate KeyAt(s: string, i: int)
    requires 0 <= i
  {
    i + 4 <= |s| && s[i] == 'k' && s[i + 1] == 'e' && s[i + 2] == 'y' && s[i + 3] == '='
  }

  /** Length of the longest prefix of s without '&' (the greedy `[^&]+`). */
  function ValueLength(s: string): (n: nat)
    ensures n <= |s|
    ensures forall i :: 0 <= i < n ==> s[i] != '&'
    ensures n == |s| || s[n] == '&'
    decreases |s|
  {
    if |s| == 0 || s[0] == '&' then 0 else 1 + ValueLength(s[1..])
  }

  /** The regex matches at the start of s: "key=" and at least one char other than '&'. */
  predicate KeyValueAtStart(s: string) {
    KeyAt(s, 0) && |s| > 4 && s[4] != '&'
  }

  function MaskKeys(s: string): string
    decreases |s|
  {
    if |s| == 0 then []
    else if KeyValueAtStart(s) then MaskedKey + MaskKeys(s[4 + ValueLength(s[4..])..])
    else [s[0]] + MaskKeys(s[1..])
  }

  /** What may follow a "key=" in a masked URI: nothing, '&', or "***" and then nothing or '&'. */
  predicate SafeAfterKey(t: string) {
    t == [] || t[0] == '&' || (|t| >= 3 && t[..3] == "***" && (|t| == 3 || t[3] == '&'))
  }

  /** No "key=" in s is followed by a secret. */
  predicate NoExposedKey(s: string) {
    forall i :: 0 <= i < |s| && KeyAt(s, i) ==> SafeAfterKey(s[i + 4..])
  }

  /** Masking preserves the first char, unless the first char starts a match (then it is 'k' too). */
  lemma MaskKeysHead(s: string)
    requires |s| > 0
    ensures |MaskKeys(s)| > 0 && MaskKeys(s)[0] == s[0]
  {
  }

  lemma MaskKeysCopies(s: string)
    requires |s| > 0 && s[0] != 'k'
    ensures MaskKeys(s) == [s[0]] + MaskKeys(s[1..])
  {
  }

  /** A suffix that starts with '&' (or is empty) is masked into one that does too. */
  lemma MaskKeysAmp(s: string)
    requires s == [] || s[0] == '&'
    ensures MaskKeys(s) == [] || MaskKeys(s)[0] == '&'
  {
  }

  /** Prepending the masked block to a safe tail that starts with '&' (or is empty) stays safe. */
  lemma {:induction false} MaskBlockSafe(t: string)
    requires NoExposedKey(t)
    requires t == [] || t[0] == '&'
    ensures NoExposedKey(MaskedKey + t)
  {
    var r := MaskedKey + t;
    forall i | 0 <= i < |r| ensures KeyAt(r, i) ==> SafeAfterKey(r[i + 4..]) {
      if i == 0 {
        assert r[4..] == "***" + t;
        assert r[4..][..3] == "***";
      } else if i < 7 {
        assert r[i] != 'k';
      } else if KeyAt(r, i) {
        assert KeyAt(t, i - 7);
        assert r[i + 4..] == t[i - 7 + 4..];
      }
    }
  }

  /**
   * A char copied to the front of the masked text can only start a "key=" when
   * s starts with "key=" itself, and then no value follows that "key=".
   */
  lemma CopiedKeyIsSafe(s: string)
    requires |s| > 0 && !KeyValueAtStart(s)
    requires KeyAt([s[0]] + MaskKeys(s[1..]), 0)
    ensures SafeAfterKey(([s[0]] + MaskKeys(s[1..]))[4..])
  {
    var t := s[1..];
    var r := [s[0]] + MaskKeys(t);
    assert s[0] == 'k';
    MaskKeysHead(t);
    assert t[0] == 'e';
    MaskKeysCopies(t);
    var u := t[1..];
    assert MaskKeys(u)[0] == 'y';
    MaskKeysHead(u);
    assert u[0] == 'y';
    MaskKeysCopies(u);
    var v := u[1..];
    assert MaskKeys(v)[0] == '=';
    MaskKeysHead(v);
    assert v[0] == '=';
    MaskKeysCopies(v);
    assert r == "key=" + MaskKeys(v[1..]);
    assert KeyAt(s, 0);
    assert v[1..] == s[4..];
    MaskKeysAmp(s[4..]);
    assert r[4..] == MaskKeys(s[4..]);
  }

  /**
   * Putting a char in front of a safe text keeps it safe, when a "key=" that
   * the char may start is itself safe.
   */
  lemma PrependSafe(c: char, t: string)
    requires NoExposedKey(t)
    requires KeyAt([c] + t, 0) ==> SafeAfterKey(([c] + t)[4..])
    ensures NoExposedKey([c] + t)
  {
    var r := [c] + t;
    forall i | 0 < i < |r| && KeyAt(r, i) ensures SafeAfterKey(r[i + 4..]) {
      assert KeyAt(t, i - 1);
      assert r[i + 4..] == t[i - 1 + 4..];
    }
  }

  /** When s does not start with a key and its value, its first char is copied. */
  lemma MaskKeysCopyStep(s: string)
    requires |s| > 0 && !KeyValueAtStart(s)
    ensures MaskKeys(s) == [s[0]] + MaskKeys(s[1..])
  {
  }

  /** A copied first char keeps the masked text safe when the masked rest is safe. */
  lemma CopiedCharSafe(s: string)
    requires |s| > 0 && !KeyValueAtStart(s)
    requires NoExposedKey(MaskKeys(s[1..]))
    ensures NoExposedKey(MaskKeys(s))
  {
    MaskKeysCopyStep(s);
    if KeyAt([s[0]] + MaskKeys(s[1..]), 0) {
      CopiedKeyIsSafe(s);
    }
    PrependSafe(s[0], MaskKeys(s[1..]));
  }

  /** A masked key value keeps the text safe when the masked text after it is safe. */
  lemma MaskedValueSafe(s: string)
    requires KeyValueAtStart(s)
    requires NoExposedKey(MaskKeys(s[4 + ValueLength(s[4..])..]))
    ensures NoExposedKey(MaskKeys(s))
  {
    var n := ValueLength(s[4..]);
    var rest := s[4 + n..];
    assert MaskKeys(s) == MaskedKey + MaskKeys(rest);
    assert rest == [] || rest[0] == '&' by {
      assert rest == s[4..][n..];
    }
    MaskKeysAmp(rest);
    MaskBlockSafe(MaskKeys(rest));
  }

  /** After masking, no "key=" in the URI is followed by a key value. */
  lemma {:induction false} MaskKeysHidesValues(s: string)
    ensures NoExposedKey(MaskKeys(s))
    decreases |s|
  {
    if |s| == 0 {
    } else if KeyValueAtStart(s) {
      MaskKeysHidesValues(s[4 + ValueLength(s[4..])..]);
      MaskedValueSafe(s);
    } else {
      MaskKeysHidesValues(s[1..]);
      CopiedCharSafe(s);
    }
  }

  /** The greedy `[^&]+` takes all of a value without '&' and stops where the rest begins. */
  lemma {:induction false} ValueLengthOf(v: string, rest: string)
    requires forall i :: 0 <= i < |v| ==> v[i] != '&'
    requires rest == [] || rest[0] == '&'
    ensures ValueLength(v + rest) == |v|
    decreases |v|
  {
    if |v| > 0 {
      assert (v + rest)[1..] == v[1..] + rest;
      ValueLengthOf(v[1..], rest);
    }
  }

  /** A key value, up to the next '&' or the end, is replaced by "***", and masking goes on after it. */
  lemma MaskKeysReplacesValue(v: string, rest: string)
    requires |v| > 0 && forall i :: 0 <= i < |v| ==> v[i] != '&'
    requires rest == [] || rest[0] == '&'
    ensures MaskKeys(KeyParam + v + rest) == MaskedKey + MaskKeys(rest)
  {
    var s := KeyParam + v + rest;
    assert s[4..] == v + rest;
    ValueLengthOf(v, rest);
    assert s[4 + |v|..] == rest;
  }

  /** Text in which no "key=" starts is copied as it is, and masking goes on after it. */
  lemma {:induction false} MaskKeysCopiesPlain(p: string, rest: string)
    requires forall i :: 0 <= i < |p| ==> !KeyAt(p + rest, i)
    ensures MaskKeys(p + rest) == p + MaskKeys(rest)
    decreases |p|
  {
    if |p| > 0 {
      var s := p + rest;
      assert !KeyAt(s, 0);
      assert s[1..] == p[1..] + rest;
      forall i | 0 <= i < |p[1..]| ensures !KeyAt(p[1..] + rest, i) {
        assert !KeyAt(s, i + 1);
      }
      MaskKeysCopiesPlain(p[1..], rest);
      assert MaskKeys(s) == [p[0]] + MaskKeys(p[1..] + rest);
      assert p == [p[0]] + p[1..];
      assert [p[0]] + (p[1..] + MaskKeys(rest)) == p + MaskKeys(rest);
    } else {
      assert p + rest == rest && p + MaskKeys(rest) == MaskKeys(rest);
    }
  }

  /** A URI that carries no "key=" is logged unchanged. */
  lemma {:induction false} MaskKeysNoKey(s: string)
    requires forall i :: 0 <= i ==> !KeyAt(s, i)
    ensures MaskKeys(s) == s
    decreases |s|
  {
    if |s| > 0 {
      assert !KeyAt(s, 0);
      forall i | 0 <= i ensures !KeyAt(s[1..], i) {
        assert !KeyAt(s, i + 1);
      }
      MaskKeysNoKey(s[1..]);
    }
  }

  // ---------------------------------------------------------------
  // String.join and equalsIgnoreCase
  // ---------------------------------------------------------------

  /** String.join(sep, parts). */
  function Join(parts: seq<string>, sep: string): string
    decreases |parts|
  {
    if |parts| == 0 then []
    else if |parts| == 1 then parts[0]
    else parts[0] + sep + Join(parts[1..], sep)
  }

  /** Every part occurs in the joined string. */
  lemma {:induction false} JoinContainsEach(parts: seq<string>, sep: string, i: nat)
    requires i < |parts|
    ensures Contains(Join(parts, sep), parts[i])
    decreases |parts|
  {
    if |parts| == 1 {
      assert i == 0 && Join(parts, sep) == parts[0];
      assert OccursAt(Join(parts, sep), parts[i], 0);
    } else if i == 0 {
      ContainsPrefix(parts[0], sep + Join(parts[1..], sep));
      assert parts[0] + sep + Join(parts[1..], sep) == parts[0] + (sep + Join(parts[1..], sep));
    } else {
      JoinContainsEach(parts[1..], sep, i - 1);
      ContainsWithin(Join(parts[1..], sep), parts[i], parts[0] + sep, []);
      assert parts[0] + sep + Join(parts[1..], sep) + [] == Join(parts, sep);
    }
  }

  /** The joined length: the parts plus one separator between each two. */
  lemma {:induction false} JoinLength(parts: seq<string>, sep: string)
    requires |parts| > 0
    ensures |Join(parts, sep)| == SumLengths(parts) + (|parts| - 1) * |sep|
    decreases |parts|
  {
    if |parts| > 1 {
      JoinLength(parts[1..], sep);
    }
  }

  function SumLengths(parts: seq<string>): nat
    decreases |parts|
  {
    if |parts| == 0 then 0 else |parts[0]| + SumLengths(parts[1..])
  }

  /** Case folding on ASCII letters. */
  function ToLowerAscii(c: char): char {
    if 'A' <= c <= 'Z' then (c as int + 32) as char else c
  }

  /**
   * `a.equalsIgnoreCase(b)` with ASCII case folding. Java also pairs three
   * non-ASCII chars with ASCII letters ('ſ' with s, the Kelvin sign with k,
   * 'İ' and 'ı' with i); against a word without s, k and i, such as "gpt",
   * the two agree.
   */
  predicate EqualsIgnoreCase(a: string, b: string) {
    |a| == |b| && forall i :: 0 <= i < |a| ==> ToLowerAscii(a[i]) == ToLowerAscii(b[i])
  }

  /** The ASCII letter c in either case. */
  predicate EitherCase(c: char, lower: char) {
    c == lower || c as int + 32 == lower as int
  }

  /**
   * A lower-case ASCII word without s, k and i (whose Unicode case partners
   * stay out of this model) matches exactly the strings that spell it in any
   * mix of cases.
   */
  lemma IgnoreCaseOfLowerWord(word: string, m: string)
    requires forall i :: 0 <= i < |word| ==> 'a' <= word[i] <= 'z' && word[i] !in "ski"
    ensures EqualsIgnoreCase(word, m) <==> |m| == |word| && forall i :: 0 <= i < |m| ==> EitherCase(m[i], word[i])
  {
    if |m| == |word| {
      forall i | 0 <= i < |m| ensures ToLowerAscii(word[i]) == ToLowerAscii(m[i]) <==> EitherCase(m[i], word[i]) {
        assert ToLowerAscii(word[i]) == word[i];
      }
    }
  }

  // ---------------------------------------------------------------
  // Decimal rendering of a Long in string concatenation
  // ---------------------------------------------------------------

  function DigitChar(d: nat): char
    requires d < 10
  {
    ('0' as int + d) as char
  }

  predicate IsDigit(c: char) {
    '0' <= c <= '9'
  }

  /** The decimal digits of n, without leading zeros. */
  function DecimalString(n: nat): (s: string)
    ensures |s| > 0 && forall i :: 0 <= i < |s| ==> IsDigit(s[i])
    ensures |s| > 1 ==> s[0] != '0'
    decreases n
  {
    if n < 10 then [DigitChar(n)] else DecimalString(n / 10) + [DigitChar(n % 10)]
  }

  /** The value of a string of decimal digits. */
  function DecimalValue(s: string): nat
    requires forall i :: 0 <= i < |s| ==> IsDigit(s[i])
    decreases |s|
  {
    if s == [] then 0 else DecimalValue(s[..|s| - 1]) * 10 + DigitValue(s[|s| - 1])
  }

  function DigitValue(c: char): nat
    requires IsDigit(c)
  {
    c as int - '0' as int
  }

  /** Reading the digits back gives the number. */
  lemma {:induction false} DecimalRoundTrip(n: nat)
    ensures DecimalValue(DecimalString(n)) == n
    decreases n
  {
    if n >= 10 {
      DecimalRoundTrip(n / 10);
      var s := DecimalString(n);
      assert s[..|s| - 1] == DecimalString(n / 10);
    }
  }

  /** `"" + n` for a Long. */
  function LongString(n: int): (s: string)
    ensures n < 0 ==> s == "-" + DecimalString(-n)
    ensures n >= 0 ==> s == DecimalString(n)
  {
    if n < 0 then "-" + DecimalString(-n) else DecimalString(n)
  }

  /**
   * What `"" + n` prints reads back as n: a leading '-' exactly for a
   * negative number, and decimal digits after it.
   */
  lemma LongStringRoundTrip(n: int)
    ensures var s := LongString(n);
      && (|s| > 0 && s[0] == '-' <==> n < 0)
      && (n < 0 ==> (forall i :: 0 <= i < |s[1..]| ==> IsDigit(s[1..][i])) && DecimalValue(s[1..]) == -n)
      && (n >= 0 ==> (forall i :: 0 <= i < |s| ==> IsDigit(s[i])) && DecimalValue(s) == n)
  {
    var s := LongString(n);
    if n < 0 {
      DecimalRoundTrip(-n);
      assert s[1..] == DecimalString(-n);
    } else {
      DecimalRoundTrip(n);
    }
  }
}
