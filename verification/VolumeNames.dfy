/**
 * Volume names derived from environment variable names: lower-cased, other characters turned into
 * dashes, trimmed and cut to 63 characters (secretVolumeName in internal/controller/resources.go).
 */
module VolumeNames {
  import opened Sequences

  const MAX_LABEL: nat := 63

  predicate IsLowerOrDigit(c: char) {
    'a' <= c <= 'z' || '0' <= c <= '9'
  }

  /**
   * Lower-casing and the filter on the result in one step. Outside ASCII only the dotted capital I and
   * the Kelvin sign have a lower case that the filter keeps.
   */
  function Sanitise(c: char): char {
    if IsLowerOrDigit(c) then c
    else if 'A' <= c <= 'Z' then (c as int + 32) as char
    else if c == '\U{0130}' then 'i'
    else if c == '\U{212A}' then 'k'
    else '-'
  }

  function SanitiseAll(s: string): string {
    Map(Sanitise, s)
  }

  function TrimLeft(s: string): string {
    if s != "" && s[0] == '-' then TrimLeft(s[1..]) else s
  }

  function TrimRight(s: string): string {
    if s != "" && s[|s| - 1] == '-' then TrimRight(s[..|s| - 1]) else s
  }

  function Trim(s: string): string {
    TrimRight(TrimLeft(s))
  }

  function Cut(s: string): string {
    if |s| > MAX_LABEL then Trim(s[..MAX_LABEL]) else s
  }

  function VolumeName(envName: string): string {
    Cut(Trim(SanitiseAll(envName)))
  }

  method SecretVolumeName(envName: string) returns (name: string)
    ensures name == VolumeName(envName)
  {
    var b := "";
    for i := 0 to |envName|
      invariant b == SanitiseAll(envName[..i])
    {
      assert envName[..i + 1] == envName[..i] + [envName[i]];
      MapAppend(Sanitise, envName[..i], envName[i]);
      b := b + [Sanitise(envName[i])];
    }
    assert envName[..|envName|] == envName;
    name := Trim(b);
    if |name| > MAX_LABEL {
      name := Trim(name[..MAX_LABEL]);
    }
  }

  // ------------------------------------------------------------ DNS labels

  predicate LabelChars(s: string) {
    forall i :: 0 <= i < |s| ==> IsLowerOrDigit(s[i]) || s[i] == '-'
  }

  predicate NoOuterDash(s: string) {
    s != "" ==> s[0] != '-' && s[|s| - 1] != '-'
  }

  /** A DNS label: section 2.1 of RFC 1123, with the length limit of section 2.3.4 of RFC 1035. */
  predicate IsDnsLabel(s: string) {
    1 <= |s| <= MAX_LABEL && LabelChars(s) && NoOuterDash(s)
  }

  lemma {:induction false} TrimLeftShape(s: string)
    ensures LabelChars(s) ==> LabelChars(TrimLeft(s))
    ensures TrimLeft(s) != "" ==> TrimLeft(s)[0] != '-'
    ensures |TrimLeft(s)| <= |s|
    ensures (exists i :: 0 <= i < |s| && s[i] != '-') <==> TrimLeft(s) != ""
  {
    if s != "" && s[0] == '-' {
      TrimLeftShape(s[1..]);
      if i :| 0 <= i < |s| && s[i] != '-' {
        assert s[1..][i - 1] != '-';
      }
    }
  }

  lemma {:induction false} TrimRightShape(s: string)
    ensures LabelChars(s) ==> LabelChars(TrimRight(s))
    ensures TrimRight(s) <= s
    ensures s != "" && s[0] != '-' ==> TrimRight(s) != "" && NoOuterDash(TrimRight(s))
    ensures s == "" ==> TrimRight(s) == ""
  {
    if s != "" && s[|s| - 1] == '-' {
      TrimRightShape(s[..|s| - 1]);
    }
  }

  lemma TrimShape(s: string)
    ensures LabelChars(s) ==> LabelChars(Trim(s))
    ensures NoOuterDash(Trim(s)) && |Trim(s)| <= |s|
    ensures (exists i :: 0 <= i < |s| && s[i] != '-') <==> Trim(s) != ""
  {
    TrimLeftShape(s);
    TrimRightShape(TrimLeft(s));
  }

  lemma SanitisedChars(s: string)
    ensures LabelChars(SanitiseAll(s))
  {
  }

  /** Every volume name is a DNS label, unless nothing in the variable's name survives. */
  lemma VolumeNameIsDnsLabelIff(envName: string)
    ensures IsDnsLabel(VolumeName(envName)) <==> exists i :: 0 <= i < |envName| && Sanitise(envName[i]) != '-'
  {
    var s := SanitiseAll(envName);
    var t := Trim(s);
    SanitisedChars(envName);
    TrimShape(s);
    if |t| > MAX_LABEL {
      TrimShape(t[..MAX_LABEL]);
      assert t[..MAX_LABEL][0] != '-';
    }
    if i :| 0 <= i < |envName| && Sanitise(envName[i]) != '-' {
      assert s[i] != '-';
    }
    if i :| 0 <= i < |s| && s[i] != '-' {
      assert Sanitise(envName[i]) != '-';
    }
  }

  predicate IsFileSecret(envName: string) {
    |envName| >= 5 && envName[|envName| - 5..] == "_FILE"
  }

  lemma FileSecretHasDnsLabel(envName: string)
    requires IsFileSecret(envName)
    ensures IsDnsLabel(VolumeName(envName))
  {
    assert envName[|envName| - 1] == envName[|envName| - 5..][4] == 'E';
    assert Sanitise(envName[|envName| - 1]) == 'e';
    VolumeNameIsDnsLabelIff(envName);
  }

  // ------------------------------------------------------------ fixed point

  lemma TrimmedStays(s: string)
    requires NoOuterDash(s)
    ensures Trim(s) == s
  {
  }

  lemma {:induction false} SanitisedStays(s: string)
    requires LabelChars(s)
    ensures SanitiseAll(s) == s
  {
  }

  /** The name of a volume is its own volume name. */
  lemma VolumeNameFixedPoint(envName: string)
    ensures VolumeName(VolumeName(envName)) == VolumeName(envName)
  {
    var s := SanitiseAll(envName);
    var t := Trim(s);
    SanitisedChars(envName);
    TrimShape(s);
    if |t| > MAX_LABEL {
      TrimShape(t[..MAX_LABEL]);
    }
    var v := VolumeName(envName);
    assert LabelChars(v) && NoOuterDash(v) && |v| <= MAX_LABEL;
    SanitisedStays(v);
    TrimmedStays(v);
  }

  // ------------------------------------------------------- what a name depends on

  /** A character that sanitising does not turn into a dash. */
  predicate Survives(c: char) {
    Sanitise(c) != '-'
  }

  function WithoutLeading(s: string): string {
    if s != "" && !Survives(s[0]) then WithoutLeading(s[1..]) else s
  }

  function WithoutTrailing(s: string): string {
    if s != "" && !Survives(s[|s| - 1]) then WithoutTrailing(s[..|s| - 1]) else s
  }

  /**
   * The part of a name that its volume name depends on: from the first character that survives on, 63
   * characters, up to the last that survives.
   */
  function Significant(envName: string): string {
    var s := WithoutLeading(envName);
    WithoutTrailing(if |s| > MAX_LABEL then s[..MAX_LABEL] else s)
  }

  lemma {:induction false} TrimLeftSanitised(s: string)
    ensures TrimLeft(SanitiseAll(s)) == SanitiseAll(WithoutLeading(s))
  {
    if s != "" && !Survives(s[0]) {
      TrimLeftSanitised(s[1..]);
      assert SanitiseAll(s)[1..] == SanitiseAll(s[1..]);
    }
  }

  lemma {:induction false} TrimRightSanitised(s: string)
    ensures TrimRight(SanitiseAll(s)) == SanitiseAll(WithoutTrailing(s))
    ensures WithoutTrailing(s) <= s
  {
    if s != "" && !Survives(s[|s| - 1]) {
      var n := |s| - 1;
      TrimRightSanitised(s[..n]);
      assert SanitiseAll(s)[..n] == SanitiseAll(s[..n]);
    }
  }

  lemma {:induction false} WithoutLeadingSurvives(s: string)
    ensures WithoutLeading(s) != "" ==> Survives(WithoutLeading(s)[0])
  {
    if s != "" && !Survives(s[0]) {
      WithoutLeadingSurvives(s[1..]);
    }
  }

  lemma {:induction false} WithoutTrailingOfPrefix(s: string, n: nat)
    requires |WithoutTrailing(s)| <= n <= |s|
    ensures WithoutTrailing(s[..n]) == WithoutTrailing(s)
    decreases |s|
  {
    if n == |s| {
      assert s[..n] == s;
    } else {
      assert s[..|s| - 1][..n] == s[..n];
      WithoutTrailingOfPrefix(s[..|s| - 1], n);
    }
  }

  /** A volume name is the sanitised significant part: trimming before or after the cut is the same. */
  lemma VolumeNameOfSignificant(envName: string)
    ensures VolumeName(envName) == SanitiseAll(Significant(envName))
  {
    var s := WithoutLeading(envName);
    var w := WithoutTrailing(s);
    TrimLeftSanitised(envName);
    TrimRightSanitised(s);
    WithoutLeadingSurvives(envName);
    assert Trim(SanitiseAll(envName)) == SanitiseAll(w);
    if |w| > MAX_LABEL {
      var cut := s[..MAX_LABEL];
      assert SanitiseAll(w)[..MAX_LABEL] == SanitiseAll(cut);
      assert TrimLeft(SanitiseAll(cut)) == SanitiseAll(cut);
      TrimRightSanitised(cut);
    } else if |s| > MAX_LABEL {
      WithoutTrailingOfPrefix(s, MAX_LABEL);
    }
  }

  /** Lower case, and dashes for everything else in ASCII. */
  lemma SanitiseSpelled(c: char)
    ensures 'a' <= c <= 'z' || '0' <= c <= '9' ==> Sanitise(c) == c
    ensures forall i :: 0 <= i < 26 && c == "ABCDEFGHIJKLMNOPQRSTUVWXYZ"[i] ==> Sanitise(c) == "abcdefghijklmnopqrstuvwxyz"[i]
    ensures c as int < 128 && !('a' <= c <= 'z' || '0' <= c <= '9' || 'A' <= c <= 'Z') ==> Sanitise(c) == '-'
  {
  }

  /** At most 63 characters of a name are looked at; a name of no more than those is not cut. */
  lemma CutAt63(envName: string)
    ensures |VolumeName(envName)| <= 63
    ensures |WithoutLeading(envName)| <= 63 ==> VolumeName(envName) == SanitiseAll(WithoutTrailing(WithoutLeading(envName)))
    ensures |WithoutLeading(envName)| > 63 ==>
      VolumeName(envName) == SanitiseAll(WithoutTrailing(WithoutLeading(envName)[..63]))
  {
    VolumeNameOfSignificant(envName);
    var s := WithoutLeading(envName);
    TrimRightSanitised(if |s| > 63 then s[..63] else s);
  }

  // ---------------------------------------------------------------- clashes

  /** Equal up to case, and up to which characters stand where none survives. */
  predicate Alike(s: string, t: string) {
    |s| == |t| && forall i :: 0 <= i < |s| ==> Sanitise(s[i]) == Sanitise(t[i])
  }

  lemma SanitisedAlike(s: string, t: string)
    ensures SanitiseAll(s) == SanitiseAll(t) <==> Alike(s, t)
  {
    if SanitiseAll(s) == SanitiseAll(t) {
      assert |s| == |SanitiseAll(s)| == |t|;
      forall i | 0 <= i < |s| ensures Sanitise(s[i]) == Sanitise(t[i]) {
        assert Sanitise(s[i]) == SanitiseAll(s)[i] == SanitiseAll(t)[i] == Sanitise(t[i]);
      }
    }
  }

  /** Two variables share a volume name exactly when their significant parts are alike. */
  lemma VolumeNamesClashIff(x: string, y: string)
    ensures VolumeName(x) == VolumeName(y) <==> Alike(Significant(x), Significant(y))
  {
    VolumeNameOfSignificant(x);
    VolumeNameOfSignificant(y);
    SanitisedAlike(Significant(x), Significant(y));
  }

  lemma {:induction false} WithoutLeadingKeepsEnd(s: string)
    requires s != "" && Survives(s[|s| - 1])
    ensures var t := WithoutLeading(s); t != "" && |t| <= |s| && t == s[|s| - |t|..]
  {
    if !Survives(s[0]) {
      assert s[1..][|s| - 2] == s[|s| - 1];
      WithoutLeadingKeepsEnd(s[1..]);
    }
  }

  lemma ShortNameIsSignificant(envName: string)
    requires IsFileSecret(envName) && |envName| <= MAX_LABEL
    ensures Significant(envName) == WithoutLeading(envName)
  {
    assert envName[|envName| - 1] == envName[|envName| - 5..][4] == 'E';
    WithoutLeadingKeepsEnd(envName);
    var t := WithoutLeading(envName);
    assert t[|t| - 1] == 'E';
  }

  /** File variables of at most 63 characters share a volume name only if they are alike as a whole. */
  lemma ShortNamesClashIff(x: string, y: string)
    requires IsFileSecret(x) && |x| <= MAX_LABEL && IsFileSecret(y) && |y| <= MAX_LABEL
    ensures VolumeName(x) == VolumeName(y) <==> Alike(WithoutLeading(x), WithoutLeading(y))
  {
    VolumeNamesClashIff(x, y);
    ShortNameIsSignificant(x);
    ShortNameIsSignificant(y);
  }

  /** Two short names that differ in case only. */
  lemma CaseClashes(x: string, y: string)
    requires x == "a_FILE" && y == "A_FILE"
    ensures IsFileSecret(x) && IsFileSecret(y) && x != y && VolumeName(x) == VolumeName(y)
  {
    assert x[1..] == "_FILE" && y[1..] == "_FILE";
    assert Alike(x, y);
    ShortNamesClashIff(x, y);
  }

  const BUILT_IN_VOLUMES: set<string> := {"config", "authelia-secret", "data", "file-backend"}

  /** A variable takes the name of one of the operator's own volumes exactly when its significant part is alike. */
  lemma BuiltInClashIff(envName: string, own: string)
    requires own in BUILT_IN_VOLUMES
    ensures VolumeName(envName) == own <==> Alike(Significant(envName), own)
  {
    VolumeNameOfSignificant(envName);
    assert LabelChars(own);
    SanitisedStays(own);
    SanitisedAlike(Significant(envName), own);
  }

  /** No file variable of at most 63 characters does. */
  lemma ShortVolumeNamesAvoidBuiltIn(envName: string)
    requires IsFileSecret(envName) && |envName| <= MAX_LABEL
    ensures VolumeName(envName) !in BUILT_IN_VOLUMES
  {
    VolumeNameOfSignificant(envName);
    ShortNameIsSignificant(envName);
    assert envName[|envName| - 1] == envName[|envName| - 5..][4] == 'E';
    WithoutLeadingKeepsEnd(envName);
    BuiltInEnd(VolumeName(envName));
  }

  lemma BuiltInEnd(name: string)
    requires name != "" && name[|name| - 1] == 'e'
    ensures name !in BUILT_IN_VOLUMES
  {
    assert "config"[5] == 'g' && "authelia-secret"[14] == 't' && "data"[3] == 'a' && "file-backend"[11] == 'd';
  }

  // ------------------------------------------------------------- plain names

  /** Upper-case letters, digits and underscores, the first of them a letter. */
  predicate IsPlainName(envName: string) {
    && envName != "" && 'A' <= envName[0] <= 'Z'
    && forall i :: 0 <= i < |envName| ==> 'A' <= envName[i] <= 'Z' || '0' <= envName[i] <= '9' || envName[i] == '_'
  }

  lemma PlainAlike(s: string, t: string)
    requires IsPlainName(s) && IsPlainName(t)
    ensures Alike(s, t) <==> s == t
  {
  }

  lemma {:induction false} WithoutTrailingKeepsLetters(s: string)
    requires s != "" && 'A' <= s[0] <= 'Z'
    ensures WithoutTrailing(s) != "" && WithoutTrailing(s) <= s
  {
    if !Survives(s[|s| - 1]) {
      assert |s| > 1;
      WithoutTrailingKeepsLetters(s[..|s| - 1]);
    }
  }

  lemma SignificantIsPlain(envName: string)
    requires IsPlainName(envName)
    ensures IsPlainName(Significant(envName)) && Significant(envName) <= envName
  {
    WithoutTrailingKeepsLetters(if |envName| > MAX_LABEL then envName[..MAX_LABEL] else envName);
  }

  /** Plain names clash exactly when their first 63 characters, without trailing underscores, are equal. */
  lemma PlainNamesClashIff(x: string, y: string)
    requires IsPlainName(x) && IsPlainName(y)
    ensures VolumeName(x) == VolumeName(y) <==> Significant(x) == Significant(y)
  {
    VolumeNamesClashIff(x, y);
    SignificantIsPlain(x);
    SignificantIsPlain(y);
    PlainAlike(Significant(x), Significant(y));
  }

  /** So plain file variables of at most 63 characters never share a volume name. */
  lemma ShortVolumeNamesDistinct(x: string, y: string)
    requires IsPlainName(x) && IsFileSecret(x) && |x| <= MAX_LABEL
    requires IsPlainName(y) && IsFileSecret(y) && |y| <= MAX_LABEL
    requires x != y
    ensures VolumeName(x) != VolumeName(y)
  {
    PlainNamesClashIff(x, y);
    ShortNameIsSignificant(x);
    ShortNameIsSignificant(y);
  }

  lemma PlainBuiltIn(envName: string, plain: string)
    requires IsPlainName(envName) && IsPlainName(plain) && SanitiseAll(plain) in BUILT_IN_VOLUMES
    ensures VolumeName(envName) == SanitiseAll(plain) <==> Significant(envName) == plain
  {
    var own := SanitiseAll(plain);
    SanitisedChars(plain);
    SanitisedStays(own);
    SanitisedAlike(plain, own);
    BuiltInClashIff(envName, own);
    SignificantIsPlain(envName);
    PlainAlike(Significant(envName), plain);
  }

  lemma ConfigIsPlain()
    ensures IsPlainName("CONFIG") && SanitiseAll("CONFIG") == "config"
    ensures IsPlainName("DATA") && SanitiseAll("DATA") == "data"
  {
  }

  lemma FileBackendIsPlain()
    ensures IsPlainName("FILE_BACKEND") && SanitiseAll("FILE_BACKEND") == "file-backend"
  {
  }

  lemma AutheliaSecretIsPlain()
    ensures IsPlainName("AUTHELIA_SECRET") && SanitiseAll("AUTHELIA_SECRET") == "authelia-secret"
  {
  }

  /** The plain names cut down to a built-in one are those of which one of four names is left. */
  lemma PlainBuiltInClashIff(envName: string)
    requires IsPlainName(envName)
    ensures VolumeName(envName) in BUILT_IN_VOLUMES <==>
      Significant(envName) in {"CONFIG", "AUTHELIA_SECRET", "DATA", "FILE_BACKEND"}
  {
    ConfigIsPlain();
    FileBackendIsPlain();
    AutheliaSecretIsPlain();
    PlainBuiltIn(envName, "CONFIG");
    PlainBuiltIn(envName, "AUTHELIA_SECRET");
    PlainBuiltIn(envName, "DATA");
    PlainBuiltIn(envName, "FILE_BACKEND");
  }

  /** One of them. */
  lemma LongNameClashesWithBuiltIn(envName: string)
    requires envName == "CONFIG" + seq(57, _ => '_') + "_FILE"
    ensures IsPlainName(envName) && IsFileSecret(envName) && VolumeName(envName) == "config"
  {
    assert envName[|envName| - 5..] == "_FILE";
    assert Significant(envName) == "CONFIG" by {
      assert envName[..MAX_LABEL][..6] == "CONFIG";
      OnlyTrailing(envName[..MAX_LABEL], 6);
    }
    ConfigIsPlain();
    PlainBuiltIn(envName, "CONFIG");
  }

  lemma {:induction false} OnlyTrailing(s: string, n: nat)
    requires 0 < n <= |s| && Survives(s[n - 1]) && forall i :: n <= i < |s| ==> !Survives(s[i])
    ensures WithoutTrailing(s) == s[..n]
  {
    if n < |s| {
      OnlyTrailing(s[..|s| - 1], n);
      assert s[..|s| - 1][..n] == s[..n];
    } else {
      assert s[..n] == s;
    }
  }
}
