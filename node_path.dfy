/** The parts of Node's POSIX `path` module that the edge server calls:
    `normalize`, `join` and `extname`. Paths are strings whose separator is
    '/'; a backslash is an ordinary character. */
module NodePath {

  /** The pieces of `p` between separators; empty pieces are kept. */
  function Split(p: string): (r: seq<string>)
    ensures |r| >= 1
  {
    if p == [] then [""] else Prepend(p[0], Split(p[1..]))
  }

  /** The pieces of [c] + t from the pieces of t: a separator opens a new
      empty piece, any other character joins the first piece. */
  function Prepend(c: char, pieces: seq<string>): (r: seq<string>)
    requires |pieces| >= 1
    ensures |r| >= 1
  {
    if c == '/' then [""] + pieces else [[c] + pieces[0]] + pieces[1..]
  }

  lemma PrependAppend(c: char, left: seq<string>, right: seq<string>)
    requires |left| >= 1
    ensures Prepend(c, left + right) == Prepend(c, left) + right
  {
    if c != '/' {
      assert (left + right)[1..] == left[1..] + right;
    }
  }

  /** Splitting at an inserted separator splits the two halves on their own. */
  lemma SplitAround(a: string, b: string)
    ensures Split(a + "/" + b) == Split(a) + Split(b)
  {
    var p := a + "/" + b;
    SplitAt(p, |a|);
    assert p[..|a|] == a;
    assert p[|a| + 1..] == b;
  }

  /** Splitting at a separator of `p` splits the parts before and after it. */
  lemma {:induction false} SplitAt(p: string, i: nat)
    requires i < |p| && p[i] == '/'
    ensures Split(p) == Split(p[..i]) + Split(p[i + 1..])
  {
    if i > 0 {
      var q := p[1..];
      var head := p[..i];
      SplitAt(q, i - 1);
      assert q[..i - 1] == head[1..];
      assert q[i..] == p[i + 1..];
      assert head[0] == p[0];
      PrependAppend(p[0], Split(head[1..]), Split(p[i + 1..]));
    }
  }

  /** Processes segments left to right over a stack of kept segments: empty
      and "." segments vanish, ".." removes the last kept segment unless that
      is itself "..", and otherwise is kept in a relative path and dropped at
      the root of an absolute one. */
  function Collapse(stack: seq<string>, segs: seq<string>, absolute: bool): seq<string>
    decreases |segs|
  {
    if segs == [] then stack
    else
      var s := segs[0];
      if s == "" || s == "." then Collapse(stack, segs[1..], absolute)
      else if s == ".." then
        if |stack| > 0 && stack[|stack| - 1] != ".." then Collapse(stack[..|stack| - 1], segs[1..], absolute)
        else if absolute then Collapse(stack, segs[1..], absolute)
        else Collapse(stack + [".."], segs[1..], absolute)
      else Collapse(stack + [s], segs[1..], absolute)
  }

  lemma {:induction false} CollapseAppend(stack: seq<string>, xs: seq<string>, ys: seq<string>, absolute: bool)
    ensures Collapse(stack, xs + ys, absolute) == Collapse(Collapse(stack, xs, absolute), ys, absolute)
    decreases |xs|
  {
    if xs == [] {
      assert xs + ys == ys;
    } else {
      assert (xs + ys)[0] == xs[0];
      assert (xs + ys)[1..] == xs[1..] + ys;
      var s := xs[0];
      if s == "" || s == "." {
        CollapseAppend(stack, xs[1..], ys, absolute);
      } else if s == ".." {
        if |stack| > 0 && stack[|stack| - 1] != ".." {
          CollapseAppend(stack[..|stack| - 1], xs[1..], ys, absolute);
        } else if absolute {
          CollapseAppend(stack, xs[1..], ys, absolute);
        } else {
          CollapseAppend(stack + [".."], xs[1..], ys, absolute);
        }
      } else {
        CollapseAppend(stack + [s], xs[1..], ys, absolute);
      }
    }
  }

  function JoinSegments(segs: seq<string>): string {
    if segs == [] then "" else if |segs| == 1 then segs[0] else segs[0] + "/" + JoinSegments(segs[1..])
  }

  /** `path.normalize(p)`. */
  function Normalize(p: string): string {
    if p == [] then "."
    else
      var absolute := p[0] == '/';
      var trailing := p[|p| - 1] == '/';
      var kept := Collapse([], Split(p), absolute);
      if kept == [] then (if absolute then "/" else if trailing then "./" else ".")
      else (if absolute then "/" else "") + JoinSegments(kept) + (if trailing then "/" else "")
  }

  /** `path.join(a, b)`: the non-empty arguments joined by '/', normalised. */
  function Join(a: string, b: string): string {
    if a == [] && b == [] then "."
    else if a == [] then Normalize(b)
    else if b == [] then Normalize(a)
    else Normalize(a + "/" + b)
  }

  /** The last path component, ignoring trailing separators. */
  function BaseName(p: string): string
    decreases |p|
  {
    if p == [] then ""
    else if p[|p| - 1] == '/' then BaseName(p[..|p| - 1])
    else LastComponent(p)
  }

  function LastComponent(p: string): (r: string)
    ensures '/' !in r
    ensures |r| <= |p| && r == p[|p| - |r|..]
  {
    if p == [] || p[|p| - 1] == '/' then "" else LastComponent(p[..|p| - 1]) + [p[|p| - 1]]
  }

  /** The index of the last '.' in `s`, if there is one. */
  function LastDot(s: string): (r: int)
    ensures -1 <= r < |s|
    ensures r >= 0 ==> s[r] == '.'
    ensures forall k :: r < k < |s| ==> s[k] != '.'
  {
    if s == [] then -1 else if s[|s| - 1] == '.' then |s| - 1 else LastDot(s[..|s| - 1])
  }

  /** `path.extname(p)`: from the last '.' of the last component to its end;
      empty when that component has no '.', when its only leading '.' is the
      last one (".profile"), or when it is "..". */
  function Extname(p: string): (r: string)
    ensures r == [] || r[0] == '.'
  {
    var base := BaseName(p);
    var dot := LastDot(base);
    if dot <= 0 || base == ".." then "" else base[dot..]
  }
}

module NodePathFacts {
  import opened NodePath

  /** A name that `normalize` keeps as it is: one non-empty segment that is
      neither "." nor "..". */
  predicate IsPlainName(name: string) {
    name != "" && name != "." && name != ".." && '/' !in name
  }

  lemma {:induction false} SplitNoSeparator(w: string)
    requires '/' !in w
    ensures Split(w) == [w]
  {
    if w != [] {
      assert w[0] in w;
      assert forall c :: c in w[1..] ==> c in w;
      SplitNoSeparator(w[1..]);
      assert [w[0]] + w[1..] == w;
    }
  }

  lemma {:induction false} JoinSegmentsSnoc(segs: seq<string>, last: string)
    ensures JoinSegments(segs + [last]) == if segs == [] then last else JoinSegments(segs) + "/" + last
  {
    if |segs| == 1 {
      assert segs + [last] == [segs[0], last];
    } else if |segs| > 1 {
      assert (segs + [last])[1..] == segs[1..] + [last];
      JoinSegmentsSnoc(segs[1..], last);
    }
  }

  /** Where `path.join(dir, name)` puts a plain name: the normalised
      directory, then "/", then the name. */
  function DirPrefix(dir: string): string
  {
    var kept := Collapse([], Split(dir), true);
    if kept == [] then "/" else "/" + JoinSegments(kept) + "/"
  }

  /** `normalize` of an absolute path that keeps some segment. */
  lemma NormalizeKept(p: string, kept: seq<string>, t: string)
    requires p != [] && p[0] == '/'
    requires t == "" || t == "/"
    requires p[|p| - 1] == '/' <==> t == "/"
    requires Collapse([], Split(p), true) == kept && kept != []
    ensures Normalize(p) == "/" + JoinSegments(kept) + t
  {
  }

  lemma NormalizeEndingInName(p: string, dir: string, name: string)
    requires p != [] && p[0] == '/' && p[|p| - 1] != '/'
    requires Collapse([], Split(p), true) == Collapse([], Split(dir), true) + [name]
    ensures Normalize(p) == DirPrefix(dir) + name
  {
    NormalizeKept(p, Collapse([], Split(p), true), "");
    JoinSegmentsSnoc(Collapse([], Split(dir), true), name);
  }

  lemma CollapseName(stack: seq<string>, name: string)
    requires IsPlainName(name)
    ensures Collapse(stack, [name], true) == stack + [name]
    ensures Collapse(stack, ["", name], true) == stack + [name]
  {
    assert ["", name][1..] == [name];
  }

  /** `path.join(dir, name)` for an absolute `dir` and a plain name. */
  lemma JoinPlainName(dir: string, name: string)
    requires dir != [] && dir[0] == '/'
    requires IsPlainName(name)
    ensures Join(dir, name) == DirPrefix(dir) + name
  {
    SplitNoSeparator(name);
    SplitAround(dir, name);
    CollapseAppend([], Split(dir), [name], true);
    CollapseName(Collapse([], Split(dir), true), name);
    var p := dir + "/" + name;
    assert p[|p| - 1] == name[|name| - 1];
    assert name[|name| - 1] in name;
    NormalizeEndingInName(p, dir, name);
  }

  /** The same for a rooted name: the second argument's leading separator
      does not make `path.join` start again from the root. */
  lemma JoinRootedPlainName(dir: string, name: string)
    requires dir != [] && dir[0] == '/'
    requires IsPlainName(name)
    ensures Join(dir, "/" + name) == DirPrefix(dir) + name
  {
    SplitNoSeparator(name);
    SplitAround("", name);
    assert "" + "/" + name == "/" + name;
    assert Split("/" + name) == ["", name];
    SplitAround(dir, "/" + name);
    CollapseAppend([], Split(dir), ["", name], true);
    CollapseName(Collapse([], Split(dir), true), name);
    var p := dir + "/" + ("/" + name);
    assert dir + "/" + "/" + name == p;
    assert p[|p| - 1] == name[|name| - 1];
    assert name[|name| - 1] in name;
    NormalizeEndingInName(p, dir, name);
  }

  lemma {:induction false} LastComponentOfName(prefix: string, name: string)
    requires prefix == [] || prefix[|prefix| - 1] == '/'
    requires '/' !in name
    ensures LastComponent(prefix + name) == name
    decreases |name|
  {
    if name == [] {
      assert prefix + name == prefix;
    } else {
      var init, last := name[..|name| - 1], name[|name| - 1];
      SplitLast(name);
      LastComponentOfName(prefix, init);
      assert prefix + name == (prefix + init) + [last];
      LastComponentSnoc(prefix + init, last);
    }
  }

  /** A name without separators is its first part and its last character,
      neither holding a separator. */
  lemma SplitLast(name: string)
    requires name != [] && '/' !in name
    ensures name == name[..|name| - 1] + [name[|name| - 1]]
    ensures '/' !in name[..|name| - 1] && name[|name| - 1] != '/'
  {
    assert name[|name| - 1] in name;
    assert forall c :: c in name[..|name| - 1] ==> c in name;
  }

  lemma LastComponentSnoc(q: string, c: char)
    requires c != '/'
    ensures LastComponent(q + [c]) == LastComponent(q) + [c]
  {
    assert (q + [c])[..|q|] == q;
  }

  lemma {:induction false} LastDotOf(stem: string, tail: string)
    requires '.' !in tail
    ensures LastDot(stem + "." + tail) == |stem|
    decreases |tail|
  {
    var s := stem + "." + tail;
    if tail == [] {
      assert s[|s| - 1] == '.';
    } else {
      assert s[|s| - 1] == tail[|tail| - 1];
      assert s[..|s| - 1] == stem + "." + tail[..|tail| - 1];
      assert '.' !in tail[..|tail| - 1];
      LastDotOf(stem, tail[..|tail| - 1]);
    }
  }

  /** The extension of a file name "stem.tail" whose tail holds no further
      dot is ".tail", whatever directory it stands in. */
  lemma ExtnameOfName(prefix: string, stem: string, tail: string)
    requires prefix == [] || prefix[|prefix| - 1] == '/'
    requires stem != [] && stem != "." && '/' !in stem
    requires '/' !in tail && '.' !in tail
    ensures Extname(prefix + stem + "." + tail) == "." + tail
  {
    var name := stem + "." + tail;
    assert prefix + stem + "." + tail == prefix + name;
    DottedName(stem, tail);
    BaseNameOfName(prefix, name);
  }

  lemma DottedName(stem: string, tail: string)
    requires stem != [] && stem != "." && '/' !in stem
    requires '/' !in tail && '.' !in tail
    ensures var name := stem + "." + tail;
      '/' !in name && name != ".." && LastDot(name) == |stem| && name[|stem|..] == "." + tail
  {
    var name := stem + "." + tail;
    NoSeparatorInName(stem, tail);
    LastDotOf(stem, tail);
    assert |stem| == 1 ==> stem == [name[0]];
  }

  lemma NoSeparatorInName(stem: string, tail: string)
    requires '/' !in stem && '/' !in tail
    ensures '/' !in stem + "." + tail
  {
    var name := stem + "." + tail;
    forall i | 0 <= i < |name|
      ensures name[i] != '/'
    {
      if i < |stem| {
        assert name[i] == stem[i];
      } else if i > |stem| {
        assert name[i] == tail[i - |stem| - 1];
      }
    }
  }

  lemma BaseNameOfName(prefix: string, name: string)
    requires prefix == [] || prefix[|prefix| - 1] == '/'
    requires name != [] && '/' !in name
    ensures BaseName(prefix + name) == name
  {
    var p := prefix + name;
    assert p[|p| - 1] == name[|name| - 1];
    assert name[|name| - 1] in name;
    LastComponentOfName(prefix, name);
  }

  /** A name without a dot after its first character has no extension. */
  lemma ExtnameWithoutDot(prefix: string, name: string)
    requires prefix == [] || prefix[|prefix| - 1] == '/'
    requires name != [] && '/' !in name && '.' !in name[1..]
    ensures Extname(prefix + name) == ""
  {
    BaseNameOfName(prefix, name);
  }
}

/** Facts about segments: what `normalize` keeps of an absolute path, and how
    splitting and joining undo each other on such segments. */
module NodePathSegments {
  import opened NodePath
  import opened NodePathFacts

  predicate AllPlain(segs: seq<string>) {
    forall i :: 0 <= i < |segs| ==> IsPlainName(segs[i])
  }

  predicate NoSeparators(segs: seq<string>) {
    forall i :: 0 <= i < |segs| ==> '/' !in segs[i]
  }

  lemma {:induction false} SplitHasNoSeparators(p: string)
    ensures NoSeparators(Split(p))
  {
    if p != [] {
      SplitHasNoSeparators(p[1..]);
      var rest := Split(p[1..]);
      if p[0] != '/' {
        var first := [p[0]] + rest[0];
        assert forall c :: c in first ==> c == p[0] || c in rest[0];
        assert Split(p) == [first] + rest[1..];
      }
    }
  }

  /** At the root, `normalize` keeps only plain names. */
  lemma {:induction false} CollapseAbsoluteIsPlain(stack: seq<string>, segs: seq<string>)
    requires AllPlain(stack) && NoSeparators(segs)
    ensures AllPlain(Collapse(stack, segs, true))
    decreases |segs|
  {
    if segs != [] {
      var s := segs[0];
      assert NoSeparators(segs[1..]) by {
        forall i | 0 <= i < |segs[1..]| ensures '/' !in segs[1..][i] {
          assert segs[1..][i] == segs[i + 1];
        }
      }
      if s == "" || s == "." {
        CollapseAbsoluteIsPlain(stack, segs[1..]);
      } else if s == ".." {
        if |stack| > 0 && stack[|stack| - 1] != ".." {
          CollapseAbsoluteIsPlain(stack[..|stack| - 1], segs[1..]);
        } else {
          CollapseAbsoluteIsPlain(stack, segs[1..]);
        }
      } else {
        assert IsPlainName(s);
        CollapseAbsoluteIsPlain(stack + [s], segs[1..]);
      }
    }
  }

  /** Plain names pass through `Collapse` untouched. */
  lemma {:induction false} CollapsePlain(stack: seq<string>, segs: seq<string>, absolute: bool)
    requires AllPlain(segs)
    ensures Collapse(stack, segs, absolute) == stack + segs
    decreases |segs|
  {
    if segs != [] {
      assert IsPlainName(segs[0]);
      CollapsePlain(stack + [segs[0]], segs[1..], absolute);
      assert stack + [segs[0]] + segs[1..] == stack + segs;
    }
  }

  lemma {:induction false} SplitJoinPlain(segs: seq<string>)
    requires segs != [] && AllPlain(segs)
    ensures Split(JoinSegments(segs)) == segs
    decreases |segs|
  {
    assert IsPlainName(segs[0]);
    SplitNoSeparator(segs[0]);
    if |segs| > 1 {
      SplitJoinPlain(segs[1..]);
      SplitAround(segs[0], JoinSegments(segs[1..]));
    }
  }

  lemma {:induction false} JoinSegmentsAppend(a: seq<string>, b: seq<string>)
    requires a != [] && b != []
    ensures JoinSegments(a + b) == JoinSegments(a) + "/" + JoinSegments(b)
    decreases |a|
  {
    if |a| == 1 {
      assert (a + b)[1..] == b;
    } else {
      assert (a + b)[1..] == a[1..] + b;
      JoinSegmentsAppend(a[1..], b);
    }
  }

  lemma JoinSegmentsNonEmpty(segs: seq<string>)
    requires segs != [] && AllPlain(segs)
    ensures JoinSegments(segs) != []
  {
    assert IsPlainName(segs[0]);
    if |segs| > 1 {
      assert JoinSegments(segs) == segs[0] + "/" + JoinSegments(segs[1..]);
    }
  }
}

/** Normalising an absolute path and joining it under a directory. */
module NodePathContainment {
  import opened NodePath
  import opened NodePathFacts
  import opened NodePathSegments

  /** The kept segments of an absolute path. */
  function AbsoluteSegments(p: string): seq<string> {
    Collapse([], Split(p), true)
  }

  function TrailingMark(p: string): string {
    if p != [] && p[|p| - 1] == '/' then "/" else ""
  }

  /** `normalize` of an absolute path is "/" or "/" + plain names + the
      trailing separator if there was one. */
  lemma NormalizeAbsolute(p: string)
    requires p != [] && p[0] == '/'
    ensures AllPlain(AbsoluteSegments(p))
    ensures AbsoluteSegments(p) == [] ==> Normalize(p) == "/"
    ensures AbsoluteSegments(p) != [] ==> Normalize(p) == "/" + JoinSegments(AbsoluteSegments(p)) + TrailingMark(p)
  {
    SplitHasNoSeparators(p);
    CollapseAbsoluteIsPlain([], Split(p));
  }

  lemma JoinedEndsInName(segs: seq<string>)
    requires segs != [] && AllPlain(segs)
    ensures var j := JoinSegments(segs); j != [] && j[|j| - 1] != '/'
  {
    var last := segs[|segs| - 1];
    assert IsPlainName(last);
    assert segs == segs[..|segs| - 1] + [last];
    JoinSegmentsSnoc(segs[..|segs| - 1], last);
    assert last[|last| - 1] in last;
  }

  lemma SplitOfJoinedWithMark(segs: seq<string>, t: string)
    requires segs != [] && AllPlain(segs)
    requires t == "" || t == "/"
    ensures Split(JoinSegments(segs) + t) == segs + (if t == "/" then [""] else [])
  {
    var j := JoinSegments(segs);
    SplitJoinPlain(segs);
    if t == "/" {
      assert j + t == j + "/" + "";
      SplitAround(j, "");
    } else {
      assert j + t == j;
    }
  }

  lemma SplitOfRooted(segs: seq<string>, t: string)
    requires segs != [] && AllPlain(segs)
    requires t == "" || t == "/"
    ensures Split("/" + JoinSegments(segs) + t) == [""] + segs + (if t == "/" then [""] else [])
  {
    var rest := JoinSegments(segs) + t;
    assert "/" + JoinSegments(segs) + t == "" + "/" + rest;
    SplitAround("", rest);
    SplitOfJoinedWithMark(segs, t);
  }

  lemma CollapseKeptThenMark(stack: seq<string>, segs: seq<string>, t: string)
    requires AllPlain(segs)
    ensures Collapse(stack, [""] + segs + (if t == "/" then [""] else []), true) == stack + segs
  {
    var tailSeg: seq<string> := if t == "/" then [""] else [];
    assert [""] + segs + tailSeg == [""] + (segs + tailSeg);
    assert ([""] + (segs + tailSeg))[1..] == segs + tailSeg;
    CollapseAppend(stack, segs, tailSeg, true);
    CollapsePlain(stack, segs, true);
  }

  /** Joining a normalised absolute path under an absolute directory keeps
      the whole path below that directory. */
  lemma JoinNormalizedUnder(dir: string, segs: seq<string>, t: string)
    requires dir != [] && dir[0] == '/'
    requires segs != [] && AllPlain(segs)
    requires t == "" || t == "/"
    ensures Join(dir, "/" + JoinSegments(segs) + t) == DirPrefix(dir) + JoinSegments(segs) + t
  {
    var n := "/" + JoinSegments(segs) + t;
    var p := dir + "/" + n;
    var kept := Collapse([], Split(dir), true);
    KeptOfJoined(dir, segs, t);
    JoinedEndsInName(segs);
    assert p[0] == '/';
    assert p[|p| - 1] == '/' <==> t == "/";
    NormalizeKept(p, kept + segs, t);
    PrefixThenSegments(kept, segs, t);
  }

  /** What `normalize` keeps of "dir//segs": the directory's segments, then
      `segs`. */
  lemma KeptOfJoined(dir: string, segs: seq<string>, t: string)
    requires segs != [] && AllPlain(segs)
    requires t == "" || t == "/"
    ensures Collapse([], Split(dir + "/" + ("/" + JoinSegments(segs) + t)), true)
      == Collapse([], Split(dir), true) + segs
  {
    var tailSeg: seq<string> := if t == "/" then [""] else [];
    SplitAround(dir, "/" + JoinSegments(segs) + t);
    SplitOfRooted(segs, t);
    CollapseAppend([], Split(dir), [""] + segs + tailSeg, true);
    CollapseKeptThenMark(Collapse([], Split(dir), true), segs, t);
  }

  lemma PrefixThenSegments(kept: seq<string>, segs: seq<string>, t: string)
    requires segs != []
    ensures "/" + JoinSegments(kept + segs) + t
      == (if kept == [] then "/" else "/" + JoinSegments(kept) + "/") + JoinSegments(segs) + t
  {
    if kept != [] {
      JoinSegmentsAppend(kept, segs);
    } else {
      assert kept + segs == segs;
    }
  }
}
