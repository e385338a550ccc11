/** Canonical webhook paths. */
module Paths {
  import opened Collections
  import opened Text

  predicate Allowed(c: char) {
    'A' <= c <= 'Z' || 'a' <= c <= 'z' || '0' <= c <= '9' || c == '.' || c == '_' || c == '-' || c == '/'
  }

  predicate IsSlash(c: char) { c == '/' }

  predicate IsDash(c: char) { c == '-' }

  /** Replaces every run of characters outside the alphabet by one dash. */
  function Substitute(s: string, inRun: bool): string {
    if s == [] then []
    else if Allowed(s[0]) then [s[0]] + Substitute(s[1..], false)
    else (if inRun then [] else "-") + Substitute(s[1..], true)
  }

  function Clean(path: string): string {
    var trimmed := StripRight(StripLeft(Strip(path, IsSpace), IsSlash), IsSlash);
    Strip(Substitute(trimmed, false), IsDash)
  }

  /** The canonical form, or nothing when no addressable suffix is left. */
  function NormalisePath(path: string): Option<string> {
    if Clean(path) == [] then None else Some(Clean(path))
  }

  function StaticPath(workflowId: string, nodeId: string, userPath: Option<string>): Option<string> {
    if userPath.Some? && Strip(userPath.value, IsSpace) != [] then NormalisePath(userPath.value)
    else NormalisePath(workflowId + "/" + nodeId)
  }

  // ---- What a result looks like -------------------------------------------------------------

  ghost predicate InAlphabet(s: string) {
    forall i | 0 <= i < |s| :: Allowed(s[i])
  }

  /** Nonempty, in the alphabet, and without a dash at either end. */
  ghost predicate Canonical(s: string) {
    s != [] && InAlphabet(s) && Trimmed(s, IsDash)
  }

  lemma {:induction false} SubstituteIsAllowed(s: string, inRun: bool)
    ensures InAlphabet(Substitute(s, inRun))
  {
    if s != [] {
      SubstituteIsAllowed(s[1..], !Allowed(s[0]));
    }
  }

  lemma AlphabetTail(s: string)
    requires InAlphabet(s) && s != []
    ensures Allowed(s[0]) && InAlphabet(s[1..])
  {
    assert forall i | 0 <= i < |s[1..]| :: s[1..][i] == s[i + 1];
  }

  lemma {:induction false} SubstituteKeeps(s: string, inRun: bool)
    requires InAlphabet(s)
    ensures Substitute(s, inRun) == s
  {
    if s != [] {
      AlphabetTail(s);
      SubstituteKeeps(s[1..], false);
      assert s == [s[0]] + s[1..];
    }
  }

  lemma ResultIsCanonical(path: string)
    ensures NormalisePath(path).Some? ==> Canonical(NormalisePath(path).value)
  {
    var trimmed := StripRight(StripLeft(Strip(path, IsSpace), IsSlash), IsSlash);
    SubstituteIsAllowed(trimmed, false);
    var i, j := StripIs(Substitute(trimmed, false), IsDash);
  }

  // ---- Fixed points -----------------------------------------------------------------------------

  ghost predicate Fixed(r: string) {
    NormalisePath(r) == Some(r)
  }

  /** On text in the alphabet, normalising only takes slashes and then dashes off the ends. */
  lemma CleanOfAlphabet(r: string)
    requires InAlphabet(r)
    ensures Clean(r) == Strip(Strip(r, IsSlash), IsDash)
  {
    assert r != [] ==> Allowed(r[0]) && Allowed(Last(r));
    StripTrimmed(r, IsSpace);
    var i, j := StripIs(r, IsSlash);
    assert InAlphabet(Strip(r, IsSlash));
    SubstituteKeeps(Strip(r, IsSlash), false);
  }

  lemma StripShorter(s: string, p: CharClass)
    ensures |Strip(s, p)| <= |s|
    ensures !Trimmed(s, p) ==> |Strip(s, p)| < |s|
  {
    var i, j := StripIs(s, p);
    assert j - i == |s| ==> s[i..j] == s;
  }

  /** A result is a fixed point exactly when no slash is left at either end; otherwise the next one is shorter. */
  lemma FixedIff(r: string)
    requires Canonical(r)
    ensures Fixed(r) <==> Trimmed(r, IsSlash)
    ensures !Fixed(r) ==> |Clean(r)| < |r|
  {
    CleanOfAlphabet(r);
    if Trimmed(r, IsSlash) {
      StripTrimmed(r, IsSlash);
      StripTrimmed(r, IsDash);
    } else {
      StripShorter(r, IsSlash);
      StripShorter(Strip(r, IsSlash), IsDash);
    }
  }

  function Iterate(path: string, n: nat): Option<string> {
    if n == 0 then NormalisePath(path)
    else match Iterate(path, n - 1) case None => None case Some(r) => NormalisePath(r)
  }

  /** Repeated normalisation settles: after at most as many rounds as the first result is long. */
  lemma {:induction false} IterationSettles(path: string, n: nat)
    ensures match Iterate(path, n)
            case None => true
            case Some(r) => Canonical(r) && (Fixed(r) || |r| + n <= |Clean(path)|)
  {
    if n == 0 {
      ResultIsCanonical(path);
    } else {
      IterationSettles(path, n - 1);
      if Iterate(path, n - 1).Some? {
        var r := Iterate(path, n - 1).value;
        ResultIsCanonical(r);
        FixedIff(r);
      }
    }
  }

  lemma NormalisationTerminates(path: string)
    ensures var last := Iterate(path, |Clean(path)|); last.Some? ==> Fixed(last.value)
  {
    IterationSettles(path, |Clean(path)|);
  }

  // ---- How a dash shields a slash -----------------------------------------------------------------

  /** One dash in front survives the slashes of a result and is then taken off alone. */
  lemma DashShields(r: string)
    requires Canonical(r) && Last(r) != '/'
    ensures NormalisePath("-" + r) == Some(r)
  {
    var s := "-" + r;
    CleanOfAlphabet(s);
    StripTrimmed(s, IsSlash);
    assert s[1..] == r;
    StripTrimmed(r, IsDash);
  }

  /** One slash in front of text without slashes at its ends is taken off first. */
  lemma SlashDrops(r: string)
    requires r != [] && InAlphabet(r) && Trimmed(r, IsSlash)
    ensures NormalisePath("/" + r) == NormalisePath(r)
  {
    var s := "/" + r;
    CleanOfAlphabet(s);
    CleanOfAlphabet(r);
    assert s[1..] == r;
    StripTrimmed(r, IsSlash);
  }

  lemma ShieldAgain(s: string)
    requires s != [] && InAlphabet(s) && Trimmed(s, IsSlash) && Last(s) != '-'
    ensures NormalisePath("-/" + s) == Some("/" + s) && NormalisePath("/" + s) == NormalisePath(s)
  {
    SlashDrops(s);
    assert "-/" + s == "-" + ("/" + s);
    DashShields("/" + s);
  }

  lemma DashInFront(r: string)
    requires Canonical(r) && Last(r) != '/'
    ensures InAlphabet("-" + r) && Trimmed("-" + r, IsSlash) && Last("-" + r) != '-'
  {
  }

  lemma ShieldSteps(r: string, s: string)
    requires Canonical(r) && Last(r) != '/' && s == "-" + r
    ensures NormalisePath(s) == Some(r) && NormalisePath("-/" + s) == Some("/" + s) && NormalisePath("/" + s) == Some(r)
  {
    DashShields(r);
    DashInFront(r);
    ShieldAgain(s);
  }

  lemma DashedSpellings(r: string)
    ensures "-/" + ("-" + r) == "-/-" + r && "/" + ("-" + r) == "/-" + r
  {
  }

  /** Two shielded slashes: the longer spelling is registered where the shorter one is looked up. */
  lemma ShieldedTwice(r: string)
    requires Canonical(r) && r[0] == '/' && Last(r) != '/'
    ensures NormalisePath("-" + r) == Some(r) && !Fixed(r)
    ensures NormalisePath("-/-" + r) == Some("/-" + r) && NormalisePath("/-" + r) == Some(r)
  {
    FixedIff(r);
    ShieldSteps(r, "-" + r);
    DashedSpellings(r);
  }

  /** A shielded slash is stored, and then registered where the plain spelling is. */
  lemma ShieldedBeside(r: string)
    requires Canonical(r) && Trimmed(r, IsSlash)
    ensures NormalisePath("-/" + r) == Some("/" + r) && NormalisePath("/" + r) == Some(r) && NormalisePath(r) == Some(r)
  {
    FixedIff(r);
    SlashDrops(r);
    assert "-/" + r == "-" + ("/" + r);
    assert Canonical("/" + r);
    DashShields("/" + r);
  }

  /** The alphabet of canonical paths. */
  lemma AlphabetIs(c: char)
    ensures Allowed(c) <==> c in UPPERCASE + LOWERCASE + DIGITS + "._-/"
  {
    UpperListed(c);
    LowerListed(c);
    DecimalListed(c);
    var marks := "._-/";
    assert marks[0] == '.' && marks[1] == '_' && marks[2] == '-' && marks[3] == '/';
    assert c in UPPERCASE + LOWERCASE + DIGITS + marks <==> c in UPPERCASE || c in LOWERCASE || c in DIGITS || c in marks;
  }

  // ---- Every path in parts ---------------------------------------------------------------------------

  /** Every run of characters outside the alphabet becomes one dash, and nothing else changes. */
  lemma RunBecomesDash(before: string, run: string, after: string)
    requires run != [] && forall i | 0 <= i < |run| :: !Allowed(run[i])
    requires (before != [] ==> Allowed(Last(before))) && (after != [] ==> Allowed(after[0]))
    ensures Substitute(before + run + after, false) == Substitute(before, false) + "-" + Substitute(after, false)
  {
    Regroup(before, run, after);
    SubstituteAppend(before, run + after, false);
    SubstituteRun(run, after, false);
    Regroup(Substitute(before, false), "-", Substitute(after, false));
    if before == [] { assert [] + ("-" + Substitute(after, false)) == "-" + Substitute(after, false); }
  }

  lemma {:induction false} SubstituteAppend(a: string, b: string, inRun: bool)
    requires a != [] ==> Allowed(Last(a))
    ensures Substitute(a + b, inRun) == if a == [] then Substitute(b, inRun) else Substitute(a, inRun) + Substitute(b, false)
    decreases |a|
  {
    if a == [] {
      assert a + b == b;
    } else {
      assert (a + b)[1..] == a[1..] + b;
      SubstituteAppend(a[1..], b, !Allowed(a[0]));
    }
  }

  lemma {:induction false} SubstituteRun(run: string, after: string, inRun: bool)
    requires run != [] && forall i | 0 <= i < |run| :: !Allowed(run[i])
    requires after != [] ==> Allowed(after[0])
    ensures Substitute(run + after, inRun) == (if inRun then [] else "-") + Substitute(after, false)
    decreases |run|
  {
    var s := run + after;
    assert s[0] == run[0] && s[1..] == run[1..] + after;
    if |run| == 1 {
      assert s[1..] == after;
    } else {
      SubstituteRun(run[1..], after, true);
    }
  }

  lemma {:induction false} StripLeftRun(p: CharClass, run: string, s: string)
    requires (forall i | 0 <= i < |run| :: p(run[i])) && (s != [] ==> !p(s[0]))
    ensures StripLeft(run + s, p) == s
    decreases |run|
  {
    if run == [] {
      assert run + s == s;
    } else {
      assert (run + s)[1..] == run[1..] + s;
      StripLeftRun(p, run[1..], s);
    }
  }

  lemma {:induction false} StripRightRun(p: CharClass, s: string, run: string)
    requires (forall i | 0 <= i < |run| :: p(run[i])) && (s != [] ==> !p(Last(s)))
    ensures StripRight(s + run, p) == s
    decreases |run|
  {
    if run == [] {
      assert s + run == s;
    } else {
      assert Init(s + run) == s + Init(run);
      StripRightRun(p, s, Init(run));
    }
  }

  ghost predicate AllIn(p: CharClass, s: string) {
    forall i | 0 <= i < |s| :: p(s[i])
  }

  lemma StripRuns(p: CharClass, left: string, s: string, right: string)
    requires AllIn(p, left) && AllIn(p, right) && s != [] && Trimmed(s, p)
    ensures Strip(left + s + right, p) == s
  {
    assert left + s + right == left + (s + right);
    StripLeftRun(p, left, s + right);
    StripRightRun(p, s, right);
  }

  /**
   Normalising takes blanks and then slashes off both ends, makes every foreign run a dash, and takes dashes off
   both ends: whatever the parts, the core is the result.
   */
  lemma NormalisePathIs(blank1: string, slash1: string, body: string, slash2: string, blank2: string,
                        dash1: string, core: string, dash2: string)
    requires AllIn(IsSpace, blank1) && AllIn(IsSpace, blank2) && AllIn(IsSlash, slash1) && AllIn(IsSlash, slash2)
    requires body != [] && Trimmed(body, IsSlash) && Trimmed(slash1 + body + slash2, IsSpace)
    requires AllIn(IsDash, dash1) && AllIn(IsDash, dash2) && core != [] && Trimmed(core, IsDash)
    requires Substitute(body, false) == dash1 + core + dash2
    ensures NormalisePath(blank1 + (slash1 + body + slash2) + blank2) == Some(core)
  {
    var inner := slash1 + body + slash2;
    StripRuns(IsSpace, blank1, inner, blank2);
    assert inner == slash1 + (body + slash2);
    StripLeftRun(IsSlash, slash1, body + slash2);
    StripRightRun(IsSlash, body, slash2);
    StripRuns(IsDash, dash1, core, dash2);
  }
}
