/**
  The few pieces of Ruby's String behaviour that the language pack relies on,
  written out exactly: `chomp`, `sub` with the regular expressions /p\d+$/ and
  /\d+$/, `sub` with a one-character literal, `=~ /(\w+-)?\d\.\d\.\d/`,
  `split(/[- ]/).last`, `File.join` and the interpolation of nil.

  Regular-expression conventions (Ruby's Onigmo engine):
  - `\d` matches the ASCII digits only;
  - `$` matches at the end of the string and just before every "\n";
  - `sub` replaces only the LEFTMOST match.
*/
module RubyStrings {
  import opened Wrappers

  predicate IsDigit(c: char) { '0' <= c <= '9' }

  predicate AllDigits(s: string) { forall k :: 0 <= k < |s| ==> IsDigit(s[k]) }

  /** Ruby's `$`: the end of the string, or the position just before a newline. */
  predicate AtLineEnd(s: string, j: nat) { j == |s| || (j < |s| && s[j] == '\n') }

  /** `"#{x}"` where x may be nil: nil interpolates as the empty string. */
  function Interpolate(x: Option<string>): string {
    if x.Some? then x.value else ""
  }

  // ---------------------------------------------------------------------------
  // String#chomp with the default record separator

  /** Removes one trailing "\r\n", "\n" or "\r". */
  function Chomp(s: string): (r: string)
    ensures |r| <= |s|
  {
    if |s| >= 2 && s[|s| - 2] == '\r' && s[|s| - 1] == '\n' then s[..|s| - 2]
    else if |s| >= 1 && (s[|s| - 1] == '\n' || s[|s| - 1] == '\r') then s[..|s| - 1]
    else s
  }

  /** chomp keeps a prefix and removes one line terminator, the longest one the string ends in,
      and nothing when it ends in none. */
  lemma ChompSpec(s: string)
    ensures var r := Chomp(s);
      && r == s[..|r|]
      && s[|r|..] in {"", "\n", "\r", "\r\n"}
      && (s[|r|..] == "" ==> s == [] || (s[|s| - 1] != '\n' && s[|s| - 1] != '\r'))
      && (s[|r|..] == "\n" ==> |s| < 2 || s[|s| - 2] != '\r')
  {
    if |s| >= 2 && s[|s| - 2] == '\r' && s[|s| - 1] == '\n' {
      assert s[|s| - 2..] == "\r\n";
    } else if |s| >= 1 && (s[|s| - 1] == '\n' || s[|s| - 1] == '\r') {
      assert s[|s| - 1..] == [s[|s| - 1]];
    } else {
      assert s[|s|..] == "";
    }
  }

  // ---------------------------------------------------------------------------
  // Runs of digits, and the two `sub` calls with a trailing digit run

  /** The end of the maximal run of digits that starts at i (i itself when s[i] is no digit). */
  function DigitRunEnd(s: string, i: nat): (j: nat)
    requires i <= |s|
    ensures i <= j <= |s|
    decreases |s| - i
  {
    if i < |s| && IsDigit(s[i]) then DigitRunEnd(s, i + 1) else i
  }

  /** The run is all digits and is followed by a non-digit or the end. */
  lemma {:induction false} DigitRunEndSpec(s: string, i: nat)
    requires i <= |s|
    ensures var j := DigitRunEnd(s, i);
      && (forall k :: i <= k < j ==> IsDigit(s[k]))
      && (j == |s| || !IsDigit(s[j]))
    decreases |s| - i
  {
    if i < |s| && IsDigit(s[i]) {
      DigitRunEndSpec(s, i + 1);
    }
  }

  /** /\d+$/ matches starting at i. Backtracking to a shorter run cannot help,
      because a shorter run is followed by a digit, which is not a line end. */
  predicate TailDigitsAt(s: string, i: nat) {
    i < |s| && IsDigit(s[i]) && AtLineEnd(s, DigitRunEnd(s, i))
  }

  /** /p\d+$/ matches starting at i. */
  predicate PatchAt(s: string, i: nat) {
    i < |s| && s[i] == 'p' && TailDigitsAt(s, i + 1)
  }

  /** The leftmost position at or after `from` where /\d+$/ matches. */
  function FindTailDigits(s: string, from: nat): (r: Option<nat>)
    requires from <= |s|
    ensures r.Some? ==> from <= r.value < |s|
    decreases |s| - from
  {
    if from == |s| then None
    else if TailDigitsAt(s, from) then Some(from)
    else FindTailDigits(s, from + 1)
  }

  /** The position found matches and no earlier one does; None means no position matches. */
  lemma {:induction false} FindTailDigitsSpec(s: string, from: nat)
    requires from <= |s|
    ensures var r := FindTailDigits(s, from);
      && (r.Some? ==> TailDigitsAt(s, r.value))
      && (forall i :: from <= i < |s| && (r.None? || i < r.value) ==> !TailDigitsAt(s, i))
    decreases |s| - from
  {
    if from < |s| && !TailDigitsAt(s, from) {
      FindTailDigitsSpec(s, from + 1);
    }
  }

  /** The leftmost position at or after `from` where /p\d+$/ matches. */
  function FindPatch(s: string, from: nat): (r: Option<nat>)
    requires from <= |s|
    ensures r.Some? ==> from <= r.value < |s|
    decreases |s| - from
  {
    if from == |s| then None
    else if PatchAt(s, from) then Some(from)
    else FindPatch(s, from + 1)
  }

  /** The position found matches and no earlier one does; None means no position matches. */
  lemma {:induction false} FindPatchSpec(s: string, from: nat)
    requires from <= |s|
    ensures var r := FindPatch(s, from);
      && (r.Some? ==> PatchAt(s, r.value))
      && (forall i :: from <= i < |s| && (r.None? || i < r.value) ==> !PatchAt(s, i))
    decreases |s| - from
  {
    if from < |s| && !PatchAt(s, from) {
      FindPatchSpec(s, from + 1);
    }
  }

  /** `s.sub(/\d+$/, '0')` */
  function SubTailDigits(s: string): string {
    match FindTailDigits(s, 0)
    case None => s
    case Some(i) => s[..i] + "0" + s[DigitRunEnd(s, i)..]
  }

  /** `s.sub(/p\d+$/, '')` */
  function StripPatch(s: string): string {
    match FindPatch(s, 0)
    case None => s
    case Some(i) => s[..i] + s[DigitRunEnd(s, i + 1)..]
  }

  /** In a string without newlines, /\d+$/ can only match at the start of the
      maximal digit run that ends the string. */
  lemma TailDigitsAtNoNewline(s: string, i: nat)
    requires '\n' !in s
    requires i < |s|
    ensures TailDigitsAt(s, i) <==> AllDigits(s[i..])
  {
    var j := DigitRunEnd(s, i);
    DigitRunEndSpec(s, i);
    if AllDigits(s[i..]) {
      forall k | i <= k < |s| ensures IsDigit(s[k]) {
        assert s[i..][k - i] == s[k];
      }
    }
    if TailDigitsAt(s, i) {
      assert j == |s|;
      forall k | 0 <= k < |s[i..]| ensures IsDigit(s[i..][k]) {
        assert s[i..][k] == s[i + k];
      }
    }
  }

  /** sub(/\d+$/, '0') replaces the whole trailing digit run by one "0":
      "3.0.2" becomes "3.0.0" and "2.7.10" becomes "2.7.0". */
  lemma {:induction false} SubTailDigitsReplacesRun(pre: string, digits: string)
    requires '\n' !in pre && '\n' !in digits
    requires |digits| > 0 && AllDigits(digits)
    requires pre == [] || !IsDigit(pre[|pre| - 1])
    ensures SubTailDigits(pre + digits) == pre + "0"
  {
    var s := pre + digits;
    assert '\n' !in s by {
      forall k | 0 <= k < |s| ensures s[k] != '\n' {
        if k < |pre| { assert s[k] == pre[k]; } else { assert s[k] == digits[k - |pre|]; }
      }
    }
    assert s[|pre|..] == digits;
    TailDigitsAtNoNewline(s, |pre|);
    forall i | 0 <= i < |pre| ensures !TailDigitsAt(s, i) {
      TailDigitsAtNoNewline(s, i);
      assert s[i..][|pre| - 1 - i] == pre[|pre| - 1];
    }
    FindTailDigitsSpec(s, 0);
    assert FindTailDigits(s, 0) == Some(|pre|);
    assert DigitRunEnd(s, |pre|) == |s|;
    assert s[..|pre|] == pre;
  }

  /** When the string does not end in a digit (and has no newline), sub(/\d+$/, '0') changes nothing. */
  lemma SubTailDigitsNoTrailingDigit(s: string)
    requires '\n' !in s
    requires s == [] || !IsDigit(s[|s| - 1])
    ensures SubTailDigits(s) == s
  {
    forall i | 0 <= i < |s| ensures !TailDigitsAt(s, i) {
      TailDigitsAtNoNewline(s, i);
      assert s[i..][|s| - 1 - i] == s[|s| - 1];
    }
    FindTailDigitsSpec(s, 0);
  }

  /** sub(/p\d+$/, '') removes a trailing "p" + digits: "3.0.2p107" becomes "3.0.2". */
  lemma {:induction false} StripPatchRemovesSuffix(pre: string, digits: string)
    requires '\n' !in pre && '\n' !in digits
    requires |digits| > 0 && AllDigits(digits)
    ensures StripPatch(pre + "p" + digits) == pre
  {
    var s := pre + "p" + digits;
    assert '\n' !in s by {
      forall k | 0 <= k < |s| ensures s[k] != '\n' {
        if k < |pre| { assert s[k] == pre[k]; }
        else if k > |pre| { assert s[k] == digits[k - |pre| - 1]; }
      }
    }
    assert s[|pre| + 1..] == digits;
    TailDigitsAtNoNewline(s, |pre| + 1);
    assert PatchAt(s, |pre|);
    forall i | 0 <= i < |pre| ensures !PatchAt(s, i) {
      if i + 1 < |s| {
        TailDigitsAtNoNewline(s, i + 1);
        assert s[i + 1..][|pre| - 1 - i] == 'p';
      }
    }
    FindPatchSpec(s, 0);
    assert FindPatch(s, 0) == Some(|pre|);
    assert DigitRunEnd(s, |pre| + 1) == |s|;
    assert s[..|pre|] == pre;
  }

  /** Without a newline, sub(/p\d+$/, '') changes nothing unless the string ends in "p" + digits. */
  lemma StripPatchNoSuffix(s: string)
    requires '\n' !in s
    requires forall i :: 0 <= i < |s| - 1 && s[i] == 'p' ==> !AllDigits(s[i + 1..])
    ensures StripPatch(s) == s
  {
    forall i | 0 <= i < |s| ensures !PatchAt(s, i) {
      if i + 1 < |s| && s[i] == 'p' {
        TailDigitsAtNoNewline(s, i + 1);
      }
    }
    FindPatchSpec(s, 0);
  }

  // ---------------------------------------------------------------------------
  // String#sub with a one-character literal pattern

  /** The first index at or after `from` holding c. */
  function IndexOf(s: string, c: char, from: nat): (r: Option<nat>)
    requires from <= |s|
    ensures r.Some? ==> from <= r.value < |s|
    decreases |s| - from
  {
    if from == |s| then None
    else if s[from] == c then Some(from)
    else IndexOf(s, c, from + 1)
  }

  /** The index found holds c and no earlier one does; None means c does not occur from `from` on. */
  lemma {:induction false} IndexOfSpec(s: string, c: char, from: nat)
    requires from <= |s|
    ensures var r := IndexOf(s, c, from);
      && (r.Some? ==> s[r.value] == c)
      && (forall k :: from <= k < |s| && (r.None? || k < r.value) ==> s[k] != c)
    decreases |s| - from
  {
    if from < |s| && s[from] != c {
      IndexOfSpec(s, c, from + 1);
    }
  }

  /** `s.sub(c, d)` for one-character strings c and d. */
  function SubFirst(s: string, c: char, d: char): (r: string)
    ensures |r| == |s|
  {
    match IndexOf(s, c, 0)
    case None => s
    case Some(i) => s[..i] + [d] + s[i + 1..]
  }

  /** sub replaces exactly the first occurrence and nothing else. */
  lemma SubFirstSpec(s: string, c: char, d: char)
    ensures c !in s ==> SubFirst(s, c, d) == s
    ensures c in s ==> d in SubFirst(s, c, d)
    ensures c in s ==> exists i :: 0 <= i < |s| && s[i] == c && c !in s[..i] &&
                                  SubFirst(s, c, d) == s[..i] + [d] + s[i + 1..]
  {
    IndexOfSpec(s, c, 0);
    match IndexOf(s, c, 0)
    case None =>
    case Some(i) =>
      var r := s[..i] + [d] + s[i + 1..];
      assert r[i] == d;
      assert c !in s[..i] by {
        forall k | 0 <= k < i ensures s[..i][k] != c { assert s[..i][k] == s[k]; }
      }
  }

  // ---------------------------------------------------------------------------
  // s =~ /(\w+-)?\d\.\d\.\d/   (unanchored; the optional group never decides whether it matches)

  predicate TripleAt(s: string, i: nat) {
    i + 5 <= |s| && IsDigit(s[i]) && s[i + 1] == '.' && IsDigit(s[i + 2]) && s[i + 3] == '.' && IsDigit(s[i + 4])
  }

  /** Scans for a digit-dot-digit-dot-digit substring from `from` on. */
  function HasTripleFrom(s: string, from: nat): (b: bool)
    requires from <= |s|
    ensures b ==> from + 5 <= |s|
    decreases |s| - from
  {
    if from == |s| then false
    else TripleAt(s, from) || HasTripleFrom(s, from + 1)
  }

  /** The scan succeeds exactly when some position from `from` on starts a d.d.d. */
  lemma {:induction false} HasTripleFromSpec(s: string, from: nat)
    requires from <= |s|
    ensures HasTripleFrom(s, from) <==> exists k :: from <= k <= |s| && TripleAt(s, k)
    decreases |s| - from
  {
    if from < |s| {
      HasTripleFromSpec(s, from + 1);
    }
  }

  /** Whether `s =~ /(\w+-)?\d\.\d\.\d/` is truthy. */
  predicate MatchesVersionPattern(s: string) { HasTripleFrom(s, 0) }

  // ---------------------------------------------------------------------------
  // s.split(/[- ]/).last

  predicate IsSep(c: char) { c == '-' || c == ' ' }

  predicate NoSep(s: string) { forall k :: 0 <= k < |s| ==> !IsSep(s[k]) }

  predicate AllSeps(s: string) { forall k :: 0 <= k < |s| ==> IsSep(s[k]) }

  /** Every field between separators, empty ones included (split with a negative limit). */
  function Fields(s: string): (fs: seq<string>)
    ensures |fs| >= 1
    decreases |s|
  {
    if s == [] then [[]]
    else
      var init := Fields(s[..|s| - 1]);
      var c := s[|s| - 1];
      if IsSep(c) then init + [[]]
      else init[..|init| - 1] + [init[|init| - 1] + [c]]
  }

  /** No field contains a separator. */
  lemma {:induction false} FieldsSpec(s: string)
    ensures forall f :: f in Fields(s) ==> NoSep(f)
    decreases |s|
  {
    if s != [] {
      var init := Fields(s[..|s| - 1]);
      FieldsSpec(s[..|s| - 1]);
      var c := s[|s| - 1];
      if !IsSep(c) {
        assert init[|init| - 1] in init;
        var last := init[|init| - 1] + [c];
        assert NoSep(last);
        forall f | f in init[..|init| - 1] ensures NoSep(f) {
          assert f in init;
        }
      }
    }
  }

  /** A string without separators is a single field. */
  lemma {:induction false} FieldsOfNoSep(s: string)
    requires NoSep(s)
    ensures Fields(s) == [s]
    decreases |s|
  {
    if s != [] {
      var init := s[..|s| - 1];
      assert NoSep(init) by {
        forall k | 0 <= k < |init| ensures !IsSep(init[k]) { assert init[k] == s[k]; }
      }
      FieldsOfNoSep(init);
      assert !IsSep(s[|s| - 1]);
      assert init + [s[|s| - 1]] == s;
    }
  }

  /** One more character: a separator opens an empty field, any other character extends the last one. */
  lemma FieldsSnoc(t: string, d: char)
    ensures var f := Fields(t);
      Fields(t + [d]) == if IsSep(d) then f + [[]] else f[..|f| - 1] + [f[|f| - 1] + [d]]
  {
    assert (t + [d])[..|t|] == t;
  }

  /** Extending the last field of a + b extends the last field of b. */
  lemma ExtendLast(a: seq<string>, b: seq<string>, d: char)
    requires |b| >= 1
    ensures var x := a + b;
      x[..|x| - 1] + [x[|x| - 1] + [d]] == a + (b[..|b| - 1] + [b[|b| - 1] + [d]])
  {
    var x := a + b;
    assert x[..|x| - 1] == a + b[..|b| - 1];
  }

  /** A separator splits: the fields of pre + sep + post are the fields of pre followed by
      those of post. With FieldsOfNoSep this determines Fields on every string. */
  lemma {:induction false} FieldsSplit(pre: string, c: char, post: string)
    requires IsSep(c)
    ensures Fields(pre + [c] + post) == Fields(pre) + Fields(post)
    decreases |post|
  {
    if post == [] {
      FieldsSnoc(pre, c);
      assert pre + [c] + post == pre + [c];
    } else {
      var post' := post[..|post| - 1];
      var d := post[|post| - 1];
      assert pre + [c] + post == (pre + [c] + post') + [d];
      assert post == post' + [d];
      FieldsSplit(pre, c, post');
      FieldsSnoc(pre + [c] + post', d);
      FieldsSnoc(post', d);
      if !IsSep(d) {
        ExtendLast(Fields(pre), Fields(post'), d);
      }
    }
  }

  /** Ruby drops the trailing empty fields when no limit is given. */
  function DropTrailingEmpty(fs: seq<string>): (r: seq<string>)
    ensures |r| <= |fs|
    decreases |fs|
  {
    if fs != [] && fs[|fs| - 1] == [] then DropTrailingEmpty(fs[..|fs| - 1]) else fs
  }

  /** What remains is a prefix of the fields that does not end in an empty one, and every
      field dropped is empty. */
  lemma {:induction false} DropTrailingEmptySpec(fs: seq<string>)
    ensures var r := DropTrailingEmpty(fs);
      && r == fs[..|r|]
      && (r == [] || r[|r| - 1] != [])
      && (forall k :: |r| <= k < |fs| ==> fs[k] == [])
    decreases |fs|
  {
    if fs != [] && fs[|fs| - 1] == [] {
      var init := fs[..|fs| - 1];
      DropTrailingEmptySpec(init);
      var r := DropTrailingEmpty(init);
      assert init[..|r|] == fs[..|r|];
      forall k | |r| <= k < |fs| ensures fs[k] == [] {
        if k < |init| { assert fs[k] == init[k]; }
      }
    }
  }

  /** `s.split(/[- ]/).last`: nil when every field is empty (the empty string included). */
  function LastField(s: string): Option<string> {
    var fs := DropTrailingEmpty(Fields(s));
    if fs == [] then None else Some(fs[|fs| - 1])
  }

  /** s without its trailing separators (reference definition). */
  function TrimSeps(s: string): (t: string)
    ensures |t| <= |s|
    decreases |s|
  {
    if s != [] && IsSep(s[|s| - 1]) then TrimSeps(s[..|s| - 1]) else s
  }

  /** TrimSeps removes a run of separators from the end, all of them. */
  lemma {:induction false} TrimSepsSpec(s: string)
    ensures var t := TrimSeps(s);
      && t == s[..|t|]
      && AllSeps(s[|t|..])
      && (t == [] || !IsSep(t[|t| - 1]))
    decreases |s|
  {
    if s != [] && IsSep(s[|s| - 1]) {
      var init := s[..|s| - 1];
      TrimSepsSpec(init);
      var t := TrimSeps(init);
      assert init[..|t|] == s[..|t|];
      forall k | 0 <= k < |s[|t|..]| ensures IsSep(s[|t|..][k]) {
        if |t| + k < |s| - 1 {
          assert s[|t|..][k] == init[|t|..][k];
        }
      }
    }
  }

  /** The suffix of s after its last separator (reference definition). */
  function TailRun(s: string): (r: string)
    ensures |r| <= |s|
    decreases |s|
  {
    if s == [] || IsSep(s[|s| - 1]) then [] else TailRun(s[..|s| - 1]) + [s[|s| - 1]]
  }

  /** TailRun is the longest suffix without a separator. */
  lemma {:induction false} TailRunSpec(s: string)
    ensures var r := TailRun(s);
      && r == s[|s| - |r|..]
      && NoSep(r)
      && (|r| == |s| || IsSep(s[|s| - |r| - 1]))
    decreases |s|
  {
    if s != [] && !IsSep(s[|s| - 1]) {
      var init := s[..|s| - 1];
      TailRunSpec(init);
      var r := TailRun(init);
      assert init[|init| - |r|..] == s[|s| - 1 - |r|..|s| - 1];
      assert s[|s| - 1 - |r|..] == s[|s| - 1 - |r|..|s| - 1] + [s[|s| - 1]];
      if |r| < |init| {
        assert init[|init| - |r| - 1] == s[|s| - |r| - 2];
      }
    }
  }

  /** The last field of Fields(s) is the text after the last separator. */
  lemma {:induction false} LastOfFields(s: string)
    ensures Fields(s)[|Fields(s)| - 1] == TailRun(s)
    decreases |s|
  {
    if s != [] {
      LastOfFields(s[..|s| - 1]);
    }
  }

  /** A trailing separator adds an empty field, which Ruby drops again. */
  lemma LastFieldSepStep(s: string)
    requires s != [] && IsSep(s[|s| - 1])
    ensures LastField(s) == LastField(s[..|s| - 1])
  {
    var fs := Fields(s[..|s| - 1]);
    assert Fields(s) == fs + [[]];
    assert (fs + [[]])[..|fs + [[]]| - 1] == fs;
    assert DropTrailingEmpty(fs + [[]]) == DropTrailingEmpty(fs);
  }

  /** A trailing non-separator extends the last field, which is then non-empty. */
  lemma LastFieldCharStep(s: string)
    requires s != [] && !IsSep(s[|s| - 1])
    ensures LastField(s) == Some(TailRun(s))
  {
    var init := s[..|s| - 1];
    var c := s[|s| - 1];
    LastOfFields(init);
    var f0 := Fields(init);
    var last := f0[|f0| - 1] + [c];
    var fs := f0[..|f0| - 1] + [last];
    assert Fields(s) == fs;
    assert fs[|fs| - 1] == last;
    assert last != [];
    assert DropTrailingEmpty(fs) == fs;
    assert TailRun(s) == TailRun(init) + [c];
  }

  /** split(/[- ]/).last agrees with the reference: strip trailing separators, take the text
      after the last remaining separator; nil when nothing but separators is left. */
  lemma {:induction false} LastFieldIsTailRun(s: string)
    ensures LastField(s) == (var t := TrimSeps(s); if t == [] then None else Some(TailRun(t)))
    decreases |s|
  {
    if s == [] {
      assert DropTrailingEmpty(Fields(s)) == [];
    } else if IsSep(s[|s| - 1]) {
      LastFieldSepStep(s);
      LastFieldIsTailRun(s[..|s| - 1]);
      assert TrimSeps(s) == TrimSeps(s[..|s| - 1]);
    } else {
      LastFieldCharStep(s);
      assert TrimSeps(s) == s;
    }
  }

  /** split(/[- ]/).last of prefix + field, when the field has no separator and the prefix ends in one. */
  lemma LastFieldAfterSep(pre: string, f: string)
    requires f != [] && NoSep(f)
    requires pre == [] || IsSep(pre[|pre| - 1])
    ensures LastField(pre + f) == Some(f)
  {
    var s := pre + f;
    LastFieldIsTailRun(s);
    assert TrimSeps(s) == s;
    TailRunOfSuffix(pre, f);
  }

  lemma {:induction false} TailRunOfSuffix(pre: string, f: string)
    requires NoSep(f)
    requires pre == [] || IsSep(pre[|pre| - 1])
    ensures TailRun(pre + f) == f
    decreases |f|
  {
    var s := pre + f;
    if f == [] {
      assert s == pre;
    } else {
      var init := f[..|f| - 1];
      var c := f[|f| - 1];
      assert !IsSep(c);
      assert s[|s| - 1] == c;
      assert s[..|s| - 1] == pre + init;
      assert NoSep(init) by {
        forall k | 0 <= k < |init| ensures !IsSep(init[k]) { assert init[k] == f[k]; }
      }
      TailRunOfSuffix(pre, init);
      assert TailRun(s) == TailRun(s[..|s| - 1]) + [c];
      assert f == init + [c];
    }
  }

  /** A string with a character other than '-' and ' ' always has a last field. */
  lemma LastFieldExists(s: string, i: nat)
    requires i < |s| && !IsSep(s[i])
    ensures LastField(s).Some?
  {
    LastFieldIsTailRun(s);
    TrimSepsSpec(s);
    var t := TrimSeps(s);
    assert TailRun(t) == TailRun(t[..|t| - 1]) + [t[|t| - 1]];
  }

  // ---------------------------------------------------------------------------
  // File.join(dir, name) on a dir without a trailing "/"

  /** File.join inserts "/" unless the next part already starts with one. */
  function JoinPath(dir: string, name: string): string
    requires dir != [] && dir[|dir| - 1] != '/'
  {
    if name != [] && name[0] == '/' then dir + name else dir + "/" + name
  }

  // ---------------------------------------------------------------------------
  // String#include?

  /** `t` occurs in `s` starting at index `i`. */
  predicate OccursAt(s: string, t: string, i: nat) {
    i + |t| <= |s| && s[i..i + |t|] == t
  }

  /** `s.include?(t)` */
  predicate Contains(s: string, t: string) {
    exists i: nat | i <= |s| :: OccursAt(s, t, i)
  }

  /** Whatever surrounds `t`, the result contains it. */
  lemma ContainsMiddle(a: string, t: string, b: string)
    ensures Contains(a + t + b, t)
  {
    var s := a + t + b;
    assert s[|a|..|a| + |t|] == t;
    assert OccursAt(s, t, |a|);
  }

  /** `s.end_with?(t)` */
  predicate EndsWith(s: string, t: string) {
    |t| <= |s| && s[|s| - |t|..] == t
  }

  lemma EndsWithConcat(a: string, t: string)
    ensures EndsWith(a + t, t)
  {
    assert (a + t)[|a|..] == t;
  }
}
