/**
 * Stack-trace filtering (`mockit.internal.util.StackTrace`): hides frames
 * without a source file name, non-native frames of the JDK's `sun.`
 * internals, test-framework frames, and mocking-library frames (`mockit.`
 * classes that are internal or whose name lacks `Test`), so that a failure
 * report starts in the user's own code.
 *
 * A trace is a plain sequence of frames; the reflective access to
 * `Throwable` internals that the class uses to read it is not modelled.
 */
module StackTrace {
  import opened Wrappers

  /** A `StackTraceElement`: only the parts the filter looks at. */
  datatype Frame = Frame(className: string, fileName: Option<string>, isNative: bool)

  /** A `Throwable`: its stack trace and its (finite) chain of causes. */
  datatype Throwable = Throwable(trace: seq<Frame>, cause: Option<Throwable>)

  // ---------------------------------------------------------------------------
  // String predicates of `java.lang.String`

  /** `s.startsWith(p)`. */
  predicate StartsWith(s: string, p: string)
  {
    |p| <= |s| && s[..|p|] == p
  }

  /** `s.contains(sub)`, scanning the start positions from left to right. */
  predicate Contains(s: string, sub: string)
    decreases |s|
  {
    StartsWith(s, sub) || (|s| > 0 && Contains(s[1..], sub))
  }

  /** `sub` occurs in `s` starting at position `i`. */
  predicate OccursAt(s: string, sub: string, i: int)
  {
    0 <= i <= |s| - |sub| && s[i..i + |sub|] == sub
  }

  /** `Contains` holds exactly when `sub` occurs at some position of `s`. */
  lemma {:induction false} ContainsIffOccurs(s: string, sub: string)
    ensures Contains(s, sub) <==> exists i :: OccursAt(s, sub, i)
    decreases |s|
  {
    if StartsWith(s, sub) {
      assert OccursAt(s, sub, 0);
    } else if |s| == 0 {
    } else {
      ContainsIffOccurs(s[1..], sub);
      if Contains(s[1..], sub) {
        var i :| OccursAt(s[1..], sub, i);
        assert s[1..][i..i + |sub|] == s[i + 1..i + 1 + |sub|];
        assert OccursAt(s, sub, i + 1);
      }
      if exists i :: OccursAt(s, sub, i) {
        var i :| OccursAt(s, sub, i);
        assert i != 0;
        assert s[1..][i - 1..i - 1 + |sub|] == s[i..i + |sub|];
        assert OccursAt(s[1..], sub, i - 1);
      }
    }
  }

  // ---------------------------------------------------------------------------
  // The three frame classifiers and the keep predicate

  /** `isSunMethod`: a non-native frame of a `sun.` class. */
  predicate IsSunMethod(f: Frame): (b: bool)
    ensures b <==> OccursAt(f.className, "sun.", 0) && !f.isNative
  {
    StartsWith(f.className, "sun.") && !f.isNative
  }

  /** `isTestFrameworkMethod`: a JUnit 4, JUnit 3 or TestNG class. */
  predicate IsTestFrameworkMethod(where: string): (b: bool)
    ensures b <==> OccursAt(where, "org.junit.", 0) || OccursAt(where, "junit.", 0) || OccursAt(where, "org.testng.", 0)
  {
    StartsWith(where, "org.junit.") || StartsWith(where, "junit.") || StartsWith(where, "org.testng.")
  }

  /**
   * `isJMockitMethod`: a `mockit.` class that is internal, or whose name does
   * not mention `Test` (the library's own test classes are kept).
   */
  predicate IsJMockitMethod(where: string)
  {
    StartsWith(where, "mockit.") && (Contains(where, ".internal.") || !Contains(where, "Test"))
  }

  /**
   * `isJMockitMethod` by positions: a `mockit.` class in which `.internal.`
   * occurs somewhere, or `Test` occurs nowhere.
   */
  lemma JMockitMethodIff(where: string)
    ensures IsJMockitMethod(where) <==>
              && OccursAt(where, "mockit.", 0)
              && ((exists i :: OccursAt(where, ".internal.", i)) || !(exists i :: OccursAt(where, "Test", i)))
  {
    ContainsIffOccurs(where, ".internal.");
    ContainsIffOccurs(where, "Test");
  }

  /** The condition under which `filter` keeps a frame. */
  predicate Keep(f: Frame)
  {
    f.fileName.Some? && !IsSunMethod(f) && !IsTestFrameworkMethod(f.className) && !IsJMockitMethod(f.className)
  }

  /**
   * The frames `filter` keeps are exactly the user-code frames: they have a
   * source file, are not JUnit or TestNG frames, are native if they belong to
   * a `sun.` class, and, if they belong to a `mockit.` class, are not internal
   * and mention `Test`.
   */
  lemma KeepIffUserCode(f: Frame)
    ensures Keep(f) <==>
              && f.fileName.Some?
              && !StartsWith(f.className, "org.junit.")
              && !StartsWith(f.className, "junit.")
              && !StartsWith(f.className, "org.testng.")
              && (StartsWith(f.className, "sun.") ==> f.isNative)
              && (StartsWith(f.className, "mockit.") ==>
                    !Contains(f.className, ".internal.") && Contains(f.className, "Test"))
  {
  }

  // ---------------------------------------------------------------------------
  // Filtering one trace

  /** Reference definition: the kept frames of `t`, in their original order. */
  function Filtered(t: seq<Frame>): (r: seq<Frame>)
    ensures |r| <= |t|
    ensures forall i :: 0 <= i < |r| ==> Keep(r[i])
    ensures forall f :: f in r <==> f in t && Keep(f)
    decreases |t|
  {
    if |t| == 0 then []
    else if Keep(t[0]) then [t[0]] + Filtered(t[1..])
    else Filtered(t[1..])
  }

  /** Filtering distributes over appending one frame: the loop's step. */
  lemma {:induction false} FilteredSnoc(t: seq<Frame>, f: Frame)
    ensures Filtered(t + [f]) == Filtered(t) + (if Keep(f) then [f] else [])
    decreases |t|
  {
    if |t| == 0 {
      assert t + [f] == [f];
      assert [f][1..] == [];
    } else {
      assert (t + [f])[0] == t[0];
      assert (t + [f])[1..] == t[1..] + [f];
      FilteredSnoc(t[1..], f);
    }
  }

  /** `a` is `b` with some frames removed, the rest in order. */
  predicate IsSubsequence(a: seq<Frame>, b: seq<Frame>)
    decreases |b|
  {
    if |a| == 0 then true
    else if |b| == 0 then false
    else (a[0] == b[0] && IsSubsequence(a[1..], b[1..])) || IsSubsequence(a, b[1..])
  }

  /** Filtering preserves the order of the frames it keeps. */
  lemma {:induction false} FilteredIsSubsequence(t: seq<Frame>)
    ensures IsSubsequence(Filtered(t), t)
    decreases |t|
  {
    if |t| > 0 {
      FilteredIsSubsequence(t[1..]);
      if Keep(t[0]) {
        assert Filtered(t)[1..] == Filtered(t[1..]);
      }
    }
  }

  /** Filtering a filtered trace changes nothing. */
  lemma {:induction false} FilterIdempotent(t: seq<Frame>)
    ensures Filtered(Filtered(t)) == Filtered(t)
    decreases |t|
  {
    if |t| > 0 {
      FilterIdempotent(t[1..]);
      if Keep(t[0]) {
        var r := Filtered(t);
        assert r[0] == t[0] && r[1..] == Filtered(t[1..]);
      }
    }
  }

  /** A trace every frame of which is kept is left as it is. */
  lemma {:induction false} FilterKeepsCleanTrace(t: seq<Frame>)
    requires forall i :: 0 <= i < |t| ==> Keep(t[i])
    ensures Filtered(t) == t
    decreases |t|
  {
    if |t| > 0 {
      FilterKeepsCleanTrace(t[1..]);
    }
  }

  /**
   * `filter` on one trace: copies each kept frame, in order, into a new
   * trace of exactly the kept length.
   */
  method FilterTrace(t: seq<Frame>) returns (filtered: seq<Frame>)
    ensures filtered == Filtered(t)
  {
    filtered := [];
    var i := 0;
    while i < |t|
      invariant 0 <= i <= |t|
      invariant filtered == Filtered(t[..i])
    {
      var ste := t[i];
      FilteredSnoc(t[..i], ste);
      assert t[..i + 1] == t[..i] + [ste];
      if ste.fileName.Some? {
        var where := ste.className;
        if !IsSunMethod(ste) && !IsTestFrameworkMethod(where) && !IsJMockitMethod(where) {
          filtered := filtered + [ste];
        }
      }
      i := i + 1;
    }
    assert t[..|t|] == t;
  }

  // ---------------------------------------------------------------------------
  // Filtering a throwable and its causes

  /** The traces of `e` and of each of its causes, outermost first. */
  function Traces(e: Throwable): (ts: seq<seq<Frame>>)
    ensures |ts| >= 1 && ts[0] == e.trace
    decreases e
  {
    match e.cause
    case None => [e.trace]
    case Some(c) => [e.trace] + Traces(c)
  }

  /**
   * `filter` (and `filterStackTrace`): replaces the trace of `e` by its
   * filtered trace, then does the same for the cause, recursively.
   */
  method FilterThrowable(e: Throwable) returns (r: Throwable)
    ensures |Traces(r)| == |Traces(e)|
    ensures forall i :: 0 <= i < |Traces(e)| ==> Traces(r)[i] == Filtered(Traces(e)[i])
    decreases e
  {
    var trace := FilterTrace(e.trace);
    match e.cause {
      case None =>
        r := Throwable(trace, None);
      case Some(c) =>
        var rc := FilterThrowable(c);
        r := Throwable(trace, Some(rc));
        assert Traces(r) == [trace] + Traces(rc);
        assert Traces(e) == [e.trace] + Traces(c);
    }
  }

  // ---------------------------------------------------------------------------
  // findPositionInTestMethod

  /**
   * `findPositionInTestMethod`: the first frame that `filter` would keep, or
   * `null` when there is none.
   */
  method FindPositionInTestMethod(t: seq<Frame>) returns (r: Option<Frame>)
    ensures r == (if Filtered(t) == [] then None else Some(Filtered(t)[0]))
  {
    var i := 0;
    while i < |t|
      invariant 0 <= i <= |t|
      invariant forall j :: 0 <= j < i ==> !Keep(t[j])
    {
      var ste := t[i];
      if ste.fileName.Some? {
        var where := ste.className;
        if !IsSunMethod(ste) && !IsTestFrameworkMethod(where) && !IsJMockitMethod(where) {
          FirstKeptLeadsFiltered(t, i);
          return Some(ste);
        }
      }
      i := i + 1;
    }
    NothingKeptFiltersToEmpty(t);
    return None;
  }

  /** The filtered trace is empty exactly when no frame is kept, so the search fails exactly then. */
  lemma NoPositionIffNothingKept(t: seq<Frame>)
    ensures Filtered(t) == [] <==> forall i :: 0 <= i < |t| ==> !Keep(t[i])
  {
    if Filtered(t) != [] {
      assert Filtered(t)[0] in t;
    }
  }

  /** When frame `k` is the first kept one, it heads the filtered trace. */
  lemma {:induction false} FirstKeptLeadsFiltered(t: seq<Frame>, k: int)
    requires 0 <= k < |t| && Keep(t[k])
    requires forall j :: 0 <= j < k ==> !Keep(t[j])
    ensures Filtered(t) != [] && Filtered(t)[0] == t[k]
    decreases k
  {
    if k > 0 {
      FirstKeptLeadsFiltered(t[1..], k - 1);
    }
  }

  /** With no kept frame the filtered trace is empty. */
  lemma {:induction false} NothingKeptFiltersToEmpty(t: seq<Frame>)
    requires forall j :: 0 <= j < |t| ==> !Keep(t[j])
    ensures Filtered(t) == []
    decreases |t|
  {
    if |t| > 0 {
      NothingKeptFiltersToEmpty(t[1..]);
    }
  }
}
