/** Lexical path manipulation as Go's `path/filepath` does it on Unix: `Clean`, `Join`, `Abs`.
    A path is read as its '/'-separated fields; cleaning folds those fields into a list of
    kept segments and writes the list back out. Nothing here touches a file system. */
module Paths {
  import opened Wrappers

  const Sep: char := '/'

  /** Whether `p` is rooted, as `filepath.IsAbs` decides on Unix. */
  predicate IsAbs(p: string)
  {
    |p| > 0 && p[0] == Sep
  }

  /** The fields of `s` between separators, as `strings.Split(s, "/")` returns them. */
  function Split(s: string): (r: seq<string>)
    ensures |r| >= 1
    ensures forall i :: 0 <= i < |r| ==> Sep !in r[i]
    decreases |s|
  {
    if s == [] then [[]]
    else if s[0] == Sep then [[]] + Split(s[1..])
    else
      var rest := Split(s[1..]);
      [[s[0]] + rest[0]] + rest[1..]
  }

  /** The segments with a separator between each two, as `strings.Join(segs, "/")`. */
  function JoinWith(segs: seq<string>): string
  {
    if |segs| == 0 then ""
    else if |segs| == 1 then segs[0]
    else segs[0] + [Sep] + JoinWith(segs[1..])
  }

  lemma JoinWithCons(x: string, rest: seq<string>)
    requires |rest| >= 1
    ensures JoinWith([x] + rest) == x + [Sep] + JoinWith(rest)
  {
    assert ([x] + rest)[1..] == rest;
  }

  /** Joining the fields of a string gives the string back. */
  lemma {:induction false} JoinSplit(s: string)
    ensures JoinWith(Split(s)) == s
    decreases |s|
  {
    if s == [] {
    } else if s[0] == Sep {
      JoinSplit(s[1..]);
      JoinWithCons([], Split(s[1..]));
      assert s == [Sep] + s[1..];
    } else {
      var rest := Split(s[1..]);
      JoinSplit(s[1..]);
      if |rest| == 1 {
        assert s == [s[0]] + s[1..];
      } else {
        assert Split(s) == [[s[0]] + rest[0]] + rest[1..];
        JoinWithCons([s[0]] + rest[0], rest[1..]);
        assert rest == [rest[0]] + rest[1..];
        JoinWithCons(rest[0], rest[1..]);
        assert s == [s[0]] + s[1..];
      }
    }
  }

  /** A field without separators splits into itself. */
  lemma {:induction false} SplitSepFree(x: string)
    requires Sep !in x
    ensures Split(x) == [x]
    decreases |x|
  {
    if x != [] {
      SplitSepFree(x[1..]);
      assert x == [x[0]] + x[1..];
    }
  }

  /** Splitting distributes over a separator: the fields of `a/b` are those of `a`, then those of `b`. */
  lemma {:induction false} SplitConcat(a: string, b: string)
    ensures Split(a + [Sep] + b) == Split(a) + Split(b)
    decreases |a|
  {
    if a == [] {
      SplitCons(Sep, b);
      assert a + [Sep] + b == [Sep] + b;
    } else {
      var c, t := a[0], a[1..];
      assert a == [c] + t;
      assert a + [Sep] + b == [c] + (t + [Sep] + b);
      SplitConcat(t, b);
      SplitConcatStep(c, t, b);
    }
  }

  /** The step of `SplitConcat`: one more character in front. */
  lemma SplitConcatStep(c: char, t: string, b: string)
    requires Split(t + [Sep] + b) == Split(t) + Split(b)
    ensures Split([c] + (t + [Sep] + b)) == Split([c] + t) + Split(b)
  {
    SplitCons(c, t);
    SplitCons(c, t + [Sep] + b);
    if c == Sep {
      ConcatAssoc([[]], Split(t), Split(b));
    } else {
      FirstFieldExtends([c], Split(t), Split(b));
    }
  }

  /** Prefixing the first of the fields `rest`, followed by `more`. */
  lemma FirstFieldExtends(p: string, rest: seq<string>, more: seq<string>)
    requires rest != []
    ensures [p + (rest + more)[0]] + (rest + more)[1..] == ([p + rest[0]] + rest[1..]) + more
  {
    var both := rest + more;
    assert both[0] == rest[0];
    assert both[1..] == rest[1..] + more;
    ConcatAssoc([p + rest[0]], rest[1..], more);
  }

  /** `Split` of a string, by its first character. */
  lemma SplitCons(c: char, t: string)
    ensures Split([c] + t) ==
      if c == Sep then [[]] + Split(t) else [[c] + Split(t)[0]] + Split(t)[1..]
  {
    assert ([c] + t)[0] == c;
    assert ([c] + t)[1..] == t;
  }

  lemma ConcatAssoc<T>(x: seq<T>, y: seq<T>, z: seq<T>)
    ensures x + (y + z) == (x + y) + z
  {
  }

  /** Splitting undoes joining, for segments that hold no separator. */
  lemma {:induction false} SplitJoin(segs: seq<string>)
    requires |segs| >= 1
    requires forall i :: 0 <= i < |segs| ==> Sep !in segs[i]
    ensures Split(JoinWith(segs)) == segs
    decreases |segs|
  {
    SplitSepFree(segs[0]);
    if |segs| > 1 {
      SplitJoin(segs[1..]);
      SplitConcat(segs[0], JoinWith(segs[1..]));
      assert segs == [segs[0]] + segs[1..];
    }
  }

  /** One step of lexical cleaning: the kept segments after reading the field `seg`.
      Empty fields and "." are dropped; ".." removes the last kept segment unless that is
      itself "..", is dropped at the root of a rooted path, and is kept otherwise. */
  function Step(rooted: bool, kept: seq<string>, seg: string): seq<string>
  {
    if seg == "" || seg == "." then kept
    else if seg == ".." then
      if |kept| > 0 && kept[|kept| - 1] != ".." then kept[..|kept| - 1]
      else if rooted then kept
      else kept + [".."]
    else kept + [seg]
  }

  /** Cleaning the fields `segs` one after the other, starting from `kept`. */
  function Fold(rooted: bool, kept: seq<string>, segs: seq<string>): seq<string>
    decreases |segs|
  {
    if segs == [] then kept else Fold(rooted, Step(rooted, kept, segs[0]), segs[1..])
  }

  /** A list of kept segments written back as a path: "/" for the bare root, "." for nothing. */
  function Render(rooted: bool, kept: seq<string>): string
  {
    if rooted then [Sep] + JoinWith(kept)
    else if kept == [] then "."
    else JoinWith(kept)
  }

  /** The kept segments of `p`. */
  function Segments(p: string): seq<string>
  {
    Fold(IsAbs(p), [], Split(p))
  }

  /** `filepath.Clean`: the shortest lexically equivalent path. */
  function Clean(p: string): string
  {
    Render(IsAbs(p), Segments(p))
  }

  /** `filepath.Join(a, b)`: the elements from the first non-empty one on, joined and cleaned. */
  function Join(a: string, b: string): string
  {
    if a != "" then Clean(a + [Sep] + b)
    else if b != "" then Clean(b)
    else ""
  }

  /** `filepath.Abs` on Unix; `getwd` is what `os.Getwd` returns for the process (None: an error). */
  function Abs(p: string, getwd: Option<string>): Option<string>
  {
    if IsAbs(p) then Some(Clean(p))
    else if getwd.None? then None
    else Some(Join(getwd.value, p))
  }

  /** What every list of kept segments looks like: no empty, "." or separator-holding segment,
      no ".." in a rooted path, and in a relative one ".." only as a leading run. */
  ghost predicate Normal(rooted: bool, kept: seq<string>)
  {
    && (forall i :: 0 <= i < |kept| ==> kept[i] != "" && kept[i] != "." && Sep !in kept[i])
    && (forall i :: 0 <= i < |kept| && kept[i] == ".." ==> !rooted && forall j :: 0 <= j < i ==> kept[j] == "..")
  }

  lemma StepNormal(rooted: bool, kept: seq<string>, seg: string)
    requires Normal(rooted, kept) && Sep !in seg
    ensures Normal(rooted, Step(rooted, kept, seg))
  {
    if seg == ".." && !(|kept| > 0 && kept[|kept| - 1] != "..") && !rooted {
      var k := kept + [".."];
      forall i | 0 <= i < |k| && k[i] == ".."
        ensures forall j :: 0 <= j < i ==> k[j] == ".."
      {
        if |kept| > 0 {
          assert kept[|kept| - 1] == "..";
        }
      }
    }
  }

  lemma {:induction false} FoldNormal(rooted: bool, kept: seq<string>, segs: seq<string>)
    requires Normal(rooted, kept)
    requires forall i :: 0 <= i < |segs| ==> Sep !in segs[i]
    ensures Normal(rooted, Fold(rooted, kept, segs))
    decreases |segs|
  {
    if segs != [] {
      StepNormal(rooted, kept, segs[0]);
      FoldNormal(rooted, Step(rooted, kept, segs[0]), segs[1..]);
    }
  }

  /** The kept segments of every path are normal. */
  lemma SegmentsNormal(p: string)
    ensures Normal(IsAbs(p), Segments(p))
  {
    FoldNormal(IsAbs(p), [], Split(p));
  }

  /** Cleaning in two halves: the fields of `a` and then those of `b`. */
  lemma {:induction false} FoldConcat(rooted: bool, kept: seq<string>, a: seq<string>, b: seq<string>)
    ensures Fold(rooted, kept, a + b) == Fold(rooted, Fold(rooted, kept, a), b)
    decreases |a|
  {
    if a == [] {
      assert a + b == b;
    } else {
      assert (a + b)[0] == a[0];
      assert (a + b)[1..] == a[1..] + b;
      FoldConcat(rooted, Step(rooted, kept, a[0]), a[1..], b);
    }
  }

  /** Reading segments that are already normal after a normal list keeps every one of them. */
  lemma {:induction false} FoldNormalKeeps(rooted: bool, pre: seq<string>, rest: seq<string>)
    requires Normal(rooted, pre + rest)
    ensures Fold(rooted, pre, rest) == pre + rest
    decreases |rest|
  {
    if rest != [] {
      var all := pre + rest;
      assert all[|pre|] == rest[0];
      if rest[0] == ".." && |pre| > 0 {
        assert all[|pre| - 1] == pre[|pre| - 1];
      }
      assert Step(rooted, pre, rest[0]) == pre + [rest[0]];
      assert pre + [rest[0]] + rest[1..] == all;
      FoldNormalKeeps(rooted, pre + [rest[0]], rest[1..]);
    }
  }

  /** A clean path's kept segments are exactly the segments it was written from. */
  lemma RenderSegments(rooted: bool, kept: seq<string>)
    requires Normal(rooted, kept)
    ensures IsAbs(Render(rooted, kept)) == rooted
    ensures Segments(Render(rooted, kept)) == kept
  {
    var c := Render(rooted, kept);
    assert kept == [] + kept;
    if rooted {
      assert c == [] + [Sep] + JoinWith(kept);
      SplitConcat([], JoinWith(kept));
      if kept == [] {
        assert Split(c) == [[], []];
      } else {
        SplitJoin(kept);
        assert Split(c) == [[]] + kept;
        assert Fold(rooted, [], Split(c)) == Fold(rooted, [], kept);
        FoldNormalKeeps(rooted, [], kept);
      }
    } else if kept == [] {
      SplitSepFree(".");
    } else {
      assert kept[0] != [] && kept[0][0] != Sep;
      JoinWithFirst(kept);
      SplitJoin(kept);
      FoldNormalKeeps(rooted, [], kept);
    }
  }

  /** Cleaning is idempotent, and keeps a path rooted or relative. */
  lemma CleanIdempotent(p: string)
    ensures IsAbs(Clean(p)) == IsAbs(p)
    ensures Clean(Clean(p)) == Clean(p)
  {
    SegmentsNormal(p);
    RenderSegments(IsAbs(p), Segments(p));
  }

  /** `Join(a, b)` with a non-empty `a` cleans the fields of `b` after the kept segments of `a`:
      the joined path is `a`'s cleaned path extended (or cut back) by `b`. */
  lemma JoinSegments(a: string, b: string)
    requires a != ""
    ensures IsAbs(a + [Sep] + b) == IsAbs(a)
    ensures Join(a, b) == Render(IsAbs(a), Fold(IsAbs(a), Segments(a), Split(b)))
  {
    assert (a + [Sep] + b)[0] == a[0];
    SplitConcat(a, b);
    FoldConcat(IsAbs(a), [], Split(a), Split(b));
  }

  /** A joined path is clean. */
  lemma JoinIsClean(a: string, b: string)
    ensures Join(a, b) == "" || Clean(Join(a, b)) == Join(a, b)
  {
    if a != "" { CleanIdempotent(a + [Sep] + b); } else if b != "" { CleanIdempotent(b); }
  }

  /** `Abs` gives a clean rooted path whenever the working directory it needs is rooted. */
  lemma AbsIsRootedAndClean(p: string, getwd: Option<string>)
    requires IsAbs(p) || (getwd.Some? && IsAbs(getwd.value))
    ensures Abs(p, getwd).Some?
    ensures IsAbs(Abs(p, getwd).value)
    ensures Clean(Abs(p, getwd).value) == Abs(p, getwd).value
  {
    if IsAbs(p) {
      CleanIdempotent(p);
    } else {
      var wd := getwd.value;
      CleanIdempotent(wd + [Sep] + p);
      assert (wd + [Sep] + p)[0] == wd[0];
    }
  }

  /** If one list of kept segments extends another, the written paths extend each other too. */
  lemma {:induction false} JoinWithPrefix(b: seq<string>, t: seq<string>)
    requires |b| >= 1 && b <= t
    ensures JoinWith(b) <= JoinWith(t)
    decreases |b|
  {
    if |t| > 1 {
      assert t == [t[0]] + t[1..];
      JoinWithCons(t[0], t[1..]);
      if |b| > 1 {
        assert b == [b[0]] + b[1..];
        JoinWithCons(b[0], b[1..]);
        JoinWithPrefix(b[1..], t[1..]);
      }
    }
  }

  /** Conversely, if the written path of `b` is a string prefix of that of `t`, then `t` agrees with
      `b` on every segment but the last, and `b`'s last segment is a string prefix of `t`'s
      segment at that position. */
  lemma {:induction false} JoinWithPrefixInv(b: seq<string>, t: seq<string>)
    requires |b| >= 1
    requires forall i :: 0 <= i < |b| ==> b[i] != "" && Sep !in b[i]
    requires forall i :: 0 <= i < |t| ==> Sep !in t[i]
    requires JoinWith(b) <= JoinWith(t)
    ensures |t| >= |b|
    ensures b[..|b| - 1] == t[..|b| - 1]
    ensures b[|b| - 1] <= t[|b| - 1]
    decreases |b|
  {
    var jb, jt := JoinWith(b), JoinWith(t);
    JoinWithFirst(b);
    assert |jt| > 0;
    assert t != [];
    JoinWithFirst(t);
    var b0, t0 := b[0], t[0];
    assert forall k :: 0 <= k < |jb| ==> jb[k] == jt[k];
    assert forall k :: 0 <= k < |b0| ==> jb[k] == b0[k] && b0[k] != Sep;
    assert forall k :: 0 <= k < |t0| ==> jt[k] == t0[k] && t0[k] != Sep;
    if |b0| > |t0| {
      assert false;
    }
    assert b0 <= t0;
    if |b| > 1 {
      if |t0| > |b0| {
        assert false;
      }
      assert t0 == b0;
      if |t| == 1 {
        assert false;
      }
      JoinWithCons(b0, b[1..]);
      JoinWithCons(t0, t[1..]);
      assert b == [b0] + b[1..];
      assert t == [t0] + t[1..];
      var hb := b0 + [Sep];
      var xb, xt := JoinWith(b[1..]), JoinWith(t[1..]);
      assert jb == hb + xb;
      assert jt == hb + xt;
      assert xb <= xt by {
        assert forall k :: 0 <= k < |xb| ==> xb[k] == jb[|hb| + k] && xt[k] == jt[|hb| + k];
      }
      JoinWithPrefixInv(b[1..], t[1..]);
      assert b[..|b| - 1] == [b0] + b[1..][..|b| - 2];
      assert t[..|b| - 1] == [t0] + t[1..][..|b| - 2];
    }
  }

  /** The written path of a non-empty list starts with its first segment, and after it either
      ends or continues with a separator. */
  lemma JoinWithFirst(segs: seq<string>)
    requires |segs| >= 1
    ensures segs[0] <= JoinWith(segs)
    ensures |JoinWith(segs)| == |segs[0]| <==> |segs| == 1
    ensures |segs| > 1 ==> JoinWith(segs)[|segs[0]|] == Sep
  {
    if |segs| > 1 {
      JoinWithCons(segs[0], segs[1..]);
      assert segs == [segs[0]] + segs[1..];
    }
  }

  /** Cleaning fields other than ".." only ever adds segments. */
  lemma {:induction false} FoldExtends(rooted: bool, kept: seq<string>, segs: seq<string>)
    requires forall i :: 0 <= i < |segs| ==> segs[i] != ".."
    ensures kept <= Fold(rooted, kept, segs)
    decreases |segs|
  {
    if segs != [] {
      var next := Step(rooted, kept, segs[0]);
      assert kept <= next;
      FoldExtends(rooted, next, segs[1..]);
    }
  }

  /** Writing out a list of kept segments and one that extends it gives a string prefix. */
  lemma RenderPrefix(rooted: bool, kept: seq<string>, longer: seq<string>)
    requires kept != [] && kept <= longer
    ensures Render(rooted, kept) <= Render(rooted, longer)
  {
    JoinWithPrefix(kept, longer);
  }

  /** Conversely, for normal segment lists: a written path that starts with another non-empty one
      agrees with it on every segment but the last, whose name it merely extends. */
  lemma RenderPrefixInv(rooted: bool, kept: seq<string>, other: seq<string>)
    requires kept != [] && Normal(rooted, kept) && Normal(rooted, other)
    requires Render(rooted, kept) <= Render(rooted, other)
    ensures |other| >= |kept|
    ensures kept[..|kept| - 1] == other[..|kept| - 1]
    ensures kept[|kept| - 1] <= other[|kept| - 1]
  {
    var jk, jo := JoinWith(kept), JoinWith(other);
    JoinWithFirst(kept);
    assert kept[0] != "" && kept[0] != "." && kept[0] <= jk;
    if rooted {
      assert Render(rooted, kept) == [Sep] + jk && Render(rooted, other) == [Sep] + jo;
      assert jk <= jo by {
        assert forall k :: 0 <= k < |jk| ==> jk[k] == ([Sep] + jk)[k + 1] && jo[k] == ([Sep] + jo)[k + 1];
      }
    } else if other == [] {
      assert false;
    }
    JoinWithPrefixInv(kept, other);
  }

  /** A plain name: non-empty, not "." or "..", no separator. */
  predicate PlainName(x: string)
  {
    x != "" && x != "." && x != ".." && Sep !in x
  }

  /** Cleaning one more field commutes with reading a relative list of kept segments on top of
      another list. */
  lemma StepCommutes(rooted: bool, w: seq<string>, k: seq<string>, s: string)
    requires Normal(false, k)
    ensures Fold(rooted, w, Step(false, k, s)) == Step(rooted, Fold(rooted, w, k), s)
  {
    if s == ".." && |k| > 0 && k[|k| - 1] != ".." {
      var front, last := k[..|k| - 1], k[|k| - 1];
      assert k == front + [last];
      FoldConcat(rooted, w, front, [last]);
      assert Fold(rooted, w, k) == Fold(rooted, w, front) + [last];
    } else if s != "" && s != "." {
      FoldConcat(rooted, w, k, [s]);
    }
  }

  /** Cleaning fields relatively and then reading the result on top of `w` is the same as reading
      the fields on top of `w` directly: a leading ".." is only postponed. */
  lemma {:induction false} FoldRelativeThen(rooted: bool, w: seq<string>, k: seq<string>, segs: seq<string>)
    requires Normal(false, k)
    requires forall i :: 0 <= i < |segs| ==> Sep !in segs[i]
    ensures Fold(rooted, w, Fold(false, k, segs)) == Fold(rooted, Fold(rooted, w, k), segs)
    decreases |segs|
  {
    if segs != [] {
      StepNormal(false, k, segs[0]);
      StepCommutes(rooted, w, k, segs[0]);
      FoldRelativeThen(rooted, w, Step(false, k, segs[0]), segs[1..]);
    }
  }

  /** `Join(a, b)` for a non-empty `a`, in segments: written with `a`'s rootedness, and its kept
      segments are `b`'s fields read on top of `a`'s kept segments. */
  lemma JoinShape(a: string, b: string)
    requires a != ""
    ensures Join(a, b) != "" && IsAbs(Join(a, b)) == IsAbs(a)
    ensures Segments(Join(a, b)) == Fold(IsAbs(a), Segments(a), Split(b))
  {
    JoinSegments(a, b);
    SegmentsNormal(a);
    FoldNormal(IsAbs(a), Segments(a), Split(b));
    RenderSegments(IsAbs(a), Fold(IsAbs(a), Segments(a), Split(b)));
  }

  /** Joining a name onto a path or onto its cleaned form is the same. */
  lemma JoinClean(p: string, name: string)
    requires p != "" && PlainName(name)
    ensures Join(Clean(p), name) == Join(p, name)
  {
    SegmentsNormal(p);
    RenderSegments(IsAbs(p), Segments(p));
    assert Clean(p) != "";
    JoinSegments(Clean(p), name);
    JoinSegments(p, name);
    SplitSepFree(name);
  }

  /** A relative path and then a name, joined onto `wd`, is `wd` joined with the path, then the name. */
  lemma JoinAssoc(wd: string, p: string, name: string)
    requires wd != "" && p != "" && !IsAbs(p) && PlainName(name)
    ensures Join(wd, Join(p, name)) == Join(Join(wd, p), name)
  {
    var r := IsAbs(wd);
    var ks := Segments(p);
    SegmentsNormal(p);
    SplitSepFree(name);
    JoinSegments(p, name);
    var inner := Join(p, name);
    var kn := ks + [name];
    assert Fold(false, ks, [name]) == kn;
    StepNormal(false, ks, name);
    assert inner == JoinWith(kn);
    JoinWithFirst(kn);
    assert inner != "";
    SplitJoin(kn);
    JoinSegments(wd, inner);
    FoldConcat(r, Segments(wd), ks, [name]);
    FoldRelativeThen(r, Segments(wd), [], Split(p));
    var f := Fold(r, Segments(wd), Split(p));
    assert Fold(r, Segments(wd), ks) == f;
    assert Fold(r, f, [name]) == f + [name];
    JoinShape(wd, p);
    JoinSegments(Join(wd, p), name);
  }

  /** A plain name is a relative path of one kept segment, and clean. */
  lemma NameIsClean(name: string)
    requires PlainName(name)
    ensures !IsAbs(name) && Segments(name) == [name] && Clean(name) == name
  {
    SplitSepFree(name);
    assert name[0] in name;
    assert Fold(false, [], [name]) == Fold(false, [name], []);
  }

  /** Joining nothing onto a non-empty path is cleaning it. */
  lemma JoinEmpty(a: string)
    requires a != ""
    ensures Join(a, "") == Clean(a)
  {
    JoinSegments(a, "");
    assert Split("") == [""];
  }

  /** Making `p/name` absolute is making `p` absolute and joining `name` onto it. */
  lemma AbsJoin(p: string, name: string, getwd: Option<string>)
    requires PlainName(name)
    ensures Abs(Join(p, name), getwd) == if Abs(p, getwd).Some? then Some(Join(Abs(p, getwd).value, name)) else None
  {
    if p == "" {
      NameIsClean(name);
      if getwd.Some? && getwd.value != "" {
        JoinEmpty(getwd.value);
        JoinClean(getwd.value, name);
      }
      return;
    }
    JoinShape(p, name);
    JoinIsClean(p, name);
    if IsAbs(p) {
      JoinClean(p, name);
    } else if getwd.Some? {
      var wd := getwd.value;
      if wd == "" {
        JoinClean(p, name);
      } else {
        JoinAssoc(wd, p, name);
      }
    }
  }

  /** Writing out two non-empty lists one after the other puts one separator between them. */
  lemma {:induction false} JoinWithConcat(a: seq<string>, b: seq<string>)
    requires |a| >= 1 && |b| >= 1
    ensures JoinWith(a + b) == JoinWith(a) + [Sep] + JoinWith(b)
    decreases |a|
  {
    if |a| == 1 {
      JoinWithCons(a[0], b);
      assert a + b == [a[0]] + b;
    } else {
      JoinWithConcat(a[1..], b);
      assert a + b == [a[0]] + (a[1..] + b);
      JoinWithCons(a[0], a[1..] + b);
      JoinWithCons(a[0], a[1..]);
      assert a == [a[0]] + a[1..];
    }
  }

  /** The fields of a written non-empty list: the list itself, after an empty field when rooted. */
  lemma SplitRender(rooted: bool, kept: seq<string>)
    requires kept != [] && Normal(rooted, kept)
    ensures Split(Render(rooted, kept)) == (if rooted then [""] + kept else kept)
  {
    SplitJoin(kept);
    if rooted {
      assert Render(rooted, kept) == "" + [Sep] + JoinWith(kept);
      SplitConcat("", JoinWith(kept));
    }
  }

  /** For normal lists with a non-empty `kept`: the written `other` is the written `kept` itself
      or continues it after a separator exactly when `kept` is a prefix of `other`. */
  lemma RenderBelow(rooted: bool, kept: seq<string>, other: seq<string>)
    requires kept != [] && Normal(rooted, kept) && Normal(rooted, other)
    ensures (Render(rooted, other) == Render(rooted, kept) || Render(rooted, kept) + [Sep] <= Render(rooted, other))
            <==> kept <= other
  {
    if kept <= other {
      RenderExtends(rooted, kept, other);
    } else {
      RenderSegments(rooted, kept);
      RenderSegments(rooted, other);
      if Render(rooted, kept) + [Sep] <= Render(rooted, other) {
        RenderBelowPrefix(rooted, kept, other);
      }
    }
  }

  lemma RenderExtends(rooted: bool, kept: seq<string>, other: seq<string>)
    requires kept != [] && kept <= other
    ensures Render(rooted, other) == Render(rooted, kept) || Render(rooted, kept) + [Sep] <= Render(rooted, other)
  {
    var c, t := Render(rooted, kept), Render(rooted, other);
    if |other| > |kept| {
      var rest := other[|kept|..];
      assert other == kept + rest;
      JoinWithConcat(kept, rest);
      assert JoinWith(other) == JoinWith(kept) + [Sep] + JoinWith(rest);
      if rooted {
        assert t == [Sep] + JoinWith(kept) + [Sep] + JoinWith(rest);
      }
      assert t == c + [Sep] + JoinWith(rest);
      assert t[..|c| + 1] == c + [Sep];
    } else {
      assert other == kept;
    }
  }

  lemma RenderBelowPrefix(rooted: bool, kept: seq<string>, other: seq<string>)
    requires kept != [] && Normal(rooted, kept) && Normal(rooted, other)
    requires Render(rooted, kept) + [Sep] <= Render(rooted, other)
    ensures kept <= other
  {
    var c, t := Render(rooted, kept), Render(rooted, other);
    var w := t[|c| + 1..];
    assert t == c + [Sep] + w;
    SplitConcat(c, w);
    SplitRender(rooted, kept);
    JoinWithFirst(kept);
    assert kept[0] != "" && |JoinWith(kept)| >= 1 && |c| >= 1;
    assert |Render(rooted, [])| == 1;
    assert other != [];
    SplitRender(rooted, other);
    var pre: seq<string> := if rooted then [""] else [];
    assert pre + other == pre + kept + Split(w);
    assert (pre + other)[|pre|..] == other;
    assert (pre + kept + Split(w))[|pre|..] == kept + Split(w);
    assert other == kept + Split(w);
  }

  /** A cleaned path is never empty. */
  lemma CleanNonEmpty(p: string)
    ensures Clean(p) != ""
  {
    SegmentsNormal(p);
    if Segments(p) != [] {
      JoinWithFirst(Segments(p));
    }
  }
}
