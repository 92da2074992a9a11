/** The path normalisation behind a web app's identity (webapp.rs): section 5.2.4 of RFC 3986. */
module DotSegments {
  import opened Text

  predicate Starts(s: string, p: string) { p <= s }

  /** Everything before the last `/`. Of a string without one, Relaunch keeps everything and the RFC
      nothing. */
  function Pop(out: string, rfc: bool): (r: string)
    ensures |r| <= |out|
  {
    if '/' in out then UpToLast(out) else if rfc then [] else out
  }

  function UpToLast(out: string): (r: string)
    requires '/' in out
    ensures |r| < |out|
  {
    if out[|out| - 1] == '/' then out[..|out| - 1]
    else
      assert out == out[..|out| - 1] + [out[|out| - 1]];
      UpToLast(out[..|out| - 1])
  }

  /** The input's first segment, with the `/` before it if it has one. */
  function Segment(input: string): (seg: string)
    requires input != []
    ensures seg <= input
  {
    if input[0] == '/' then
      FirstIsPrefix(input[1..], '/');
      assert input == ['/'] + input[1..];
      ['/'] + Split(input[1..], '/')[0]
    else
      FirstIsPrefix(input, '/');
      Split(input, '/')[0]
  }

  lemma {:induction false} FirstIsPrefix(s: string, sep: char)
    ensures Split(s, sep)[0] <= s && sep !in Split(s, sep)[0]
    ensures var p := Split(s, sep)[0]; s == p || (|p| < |s| && s[|p|] == sep)
  {
    if s != [] && s[0] != sep {
      FirstIsPrefix(s[1..], sep);
      var p := Split(s[1..], sep)[0];
      assert Split(s, sep)[0] == [s[0]] + p && s == [s[0]] + s[1..];
      if s[1..] != p { assert s[1..][|p|] == s[|p| + 1]; }
    }
  }

  lemma SegmentShrinks(input: string)
    requires input != []
    ensures Segment(input) != []
  {
    FirstIsPrefix(input, '/');
  }

  /** `remove_dot_segments`, step by step; or, with `rfc`, section 5.2.4 of RFC 3986 to the letter. */
  function Dots(input: string, output: string, rfc: bool): string
    decreases |input|
  {
    if input == [] then output
    else if Starts(input, "../") then Dots(input[3..], output, rfc)
    else if Starts(input, "./") then Dots(input[2..], output, rfc)
    else if Starts(input, "/./") then Dots(input[2..], output, rfc)
    else if input == "/." then Dots("/", output, rfc)
    else if Starts(input, "/../") then Dots(input[3..], Pop(output, rfc), rfc)
    else if input == "/.." then Dots("/", Pop(output, rfc), rfc)
    else if input == "." || input == ".." then output
    else
      SegmentShrinks(input);
      Dots(input[|Segment(input)|..], output + Segment(input), rfc)
  }

  method RemoveDotSegments(path: string) returns (output: string)
    ensures output == Dots(path, [], false)
  {
    hide Segment, Pop;
    var input := path;
    output := [];
    while input != []
      invariant Dots(path, [], false) == Dots(input, output, false)
      decreases |input|
    {
      if Starts(input, "../") {
        input := input[3..];
      } else if Starts(input, "./") {
        input := input[2..];
      } else if Starts(input, "/./") {
        input := input[2..];
      } else if input == "/." {
        input := "/";
      } else if Starts(input, "/../") {
        input := input[3..];
        output := Pop(output, false);
      } else if input == "/.." {
        input := "/";
        output := Pop(output, false);
      } else if input == "." || input == ".." {
        input := [];
      } else {
        SegmentShrinks(input);
        var seg := Segment(input);
        output := output + seg;
        input := input[|seg|..];
      }
    }
  }

  // --------------------------------------------------------- the segment-stack reading

  function Popped(stack: seq<string>): seq<string> { if stack == [] then [] else stack[..|stack| - 1] }

  /** Segments taken one by one: `.` is skipped and `..` takes the one before it off; either as the last
      one leaves a final slash. Empty segments count. */
  function Resolve(segs: seq<string>, stack: seq<string>): seq<string> {
    if segs == [] then stack else Resolve(segs[1..], Pushed(segs[0], |segs| == 1, stack))
  }

  function Pushed(s: string, last: bool, stack: seq<string>): seq<string> {
    if s != "." && s != ".." then stack + [s]
    else
      var kept := if s == "." then stack else Popped(stack);
      if last then kept + [""] else kept
  }

  function Render(stack: seq<string>): string {
    if stack == [] then [] else Render(stack[..|stack| - 1]) + ['/'] + stack[|stack| - 1]
  }

  function Path(segs: seq<string>): string { if segs == [] then [] else ['/'] + Join(segs, '/') }

  predicate Flat(segs: seq<string>) { forall s | s in segs :: '/' !in s }

  lemma UpToLastIs(a: string, b: string)
    requires '/' !in b
    ensures UpToLast(a + ['/'] + b) == a
    decreases |b|
  {
    var s := a + ['/'] + b;
    if b == [] {
      assert s[..|s| - 1] == a;
    } else {
      assert s[..|s| - 1] == a + ['/'] + b[..|b| - 1];
      UpToLastIs(a, b[..|b| - 1]);
    }
  }

  /** What is left of a first segment `pre` once a stack over it is popped. */
  function Under(pre: string, stack: seq<string>, rfc: bool): string { if rfc && stack == [] then [] else pre }

  lemma PopRendered(pre: string, stack: seq<string>, rfc: bool)
    requires Flat(stack) && '/' !in pre
    ensures Pop(pre + Render(stack), rfc) == Under(pre, stack, rfc) + Render(Popped(stack))
  {
    if stack == [] {
      assert pre + [] == pre;
    } else {
      hide Render, UpToLast;
      var (init, last) := (stack[..|stack| - 1], stack[|stack| - 1]);
      assert last in stack && stack == init + [last];
      var out := pre + Render(init);
      RenderOver(pre, init, last);
      assert out + (['/'] + last) == out + ['/'] + last;
      UpToLastIs(out, last);
    }
  }

  /** The shape of an absolute path, by its first segment. */
  lemma PathShape(segs: seq<string>)
    requires segs != [] && Flat(segs)
    ensures var (path, s) := (Path(segs), segs[0]);
            && path == ['/'] + s + Path(segs[1..])
            && Segment(path) == ['/'] + s && path[|s| + 1..] == Path(segs[1..])
            && (Starts(path, "/./") <==> s == "." && |segs| > 1) && (path == "/." <==> s == "." && |segs| == 1)
            && (Starts(path, "/../") <==> s == ".." && |segs| > 1) && (path == "/.." <==> s == ".." && |segs| == 1)
            && !Starts(path, "../") && !Starts(path, "./") && path != "." && path != ".."
  {
    var (path, s) := (Path(segs), segs[0]);
    assert s in segs;
    assert path == ['/'] + s + Path(segs[1..]);
    assert path[1..] == Join(segs, '/');
    SplitJoin(segs, '/');
    hide Split;
    DotShapes(s, Path(segs[1..]));
  }

  lemma DotShapes(s: string, tail: string)
    requires '/' !in s && (tail == [] || tail[0] == '/')
    ensures var path := ['/'] + s + tail;
            && (Starts(path, "/./") <==> s == "." && tail != []) && (path == "/." <==> s == "." && tail == [])
            && (Starts(path, "/../") <==> s == ".." && tail != []) && (path == "/.." <==> s == ".." && tail == [])
  {
    OneDot(s, tail);
    TwoDots(s, tail);
  }

  lemma OneDot(s: string, tail: string)
    requires '/' !in s && (tail == [] || tail[0] == '/')
    ensures var path := ['/'] + s + tail;
            (Starts(path, "/./") <==> s == "." && tail != []) && (path == "/." <==> s == "." && tail == [])
  {
    var path := ['/'] + s + tail;
    assert forall i | 0 <= i < |s| :: path[i + 1] == s[i] != '/';
    assert tail != [] ==> path[|s| + 1] == '/';
    if s == "." && tail != [] { assert path[..3] == "/./"; }
    if Starts(path, "/./") {
      assert path[1] == "/./"[1] && path[2] == "/./"[2];
      assert |s| == 1 && s[0] == '.';
    }
    if path == "/." {
      assert path[1] == '.' && |path| == 2;
      assert |s| == 1 && s[0] == '.';
    }
  }

  lemma TwoDots(s: string, tail: string)
    requires '/' !in s && (tail == [] || tail[0] == '/')
    ensures var path := ['/'] + s + tail;
            (Starts(path, "/../") <==> s == ".." && tail != []) && (path == "/.." <==> s == ".." && tail == [])
  {
    var path := ['/'] + s + tail;
    assert forall i | 0 <= i < |s| :: path[i + 1] == s[i] != '/';
    assert tail != [] ==> path[|s| + 1] == '/';
    if s == ".." && tail != [] { assert path[..4] == "/../"; }
    if Starts(path, "/../") {
      assert path[1] == "/../"[1] && path[2] == "/../"[2] && path[3] == "/../"[3];
      assert |s| == 2 && s[0] == '.' && s[1] == '.';
    }
    if path == "/.." {
      assert path[1] == '.' && path[2] == '.' && |path| == 3;
      assert |s| == 2 && s[0] == '.' && s[1] == '.';
    }
  }

  lemma DotsEnds(output: string, rfc: bool)
    ensures Dots("/", output, rfc) == output + "/"
  {
    var input := "/";
    assert Path([""]) == input && Flat([""]);
    PathShape([""]);
    assert input[1..] == [];
  }

  lemma RenderMore(stack: seq<string>, s: string)
    ensures Render(stack + [s]) == Render(stack) + (['/'] + s)
  {
    assert (stack + [s])[..|stack|] == stack;
  }

  lemma RenderOver(pre: string, stack: seq<string>, s: string)
    ensures pre + Render(stack + [s]) == pre + Render(stack) + (['/'] + s)
  {
    RenderMore(stack, s);
  }

  lemma FlatPushed(s: string, last: bool, stack: seq<string>)
    requires Flat(stack) && '/' !in s
    ensures Flat(Pushed(s, last, stack))
  {
    var kept := if s == "." then stack else Popped(stack);
    assert forall t | t in kept :: t in stack;
    assert forall t | t in Pushed(s, last, stack) :: t in stack || t == s || t == "";
  }

  /** What the loop does with the first segment of an absolute path. */
  lemma FirstStep(segs: seq<string>, out: string, rfc: bool)
    requires segs != [] && Flat(segs)
    ensures var rest := Path(segs[1..]);
            Dots(Path(segs), out, rfc) ==
              if segs[0] == "." then (if |segs| > 1 then Dots(rest, out, rfc) else out + "/")
              else if segs[0] == ".." then (if |segs| > 1 then Dots(rest, Pop(out, rfc), rfc) else Pop(out, rfc) + "/")
              else Dots(rest, out + (['/'] + segs[0]), rfc)
  {
    PathShape(segs);
    DotsEnds(out, rfc);
    DotsEnds(Pop(out, rfc), rfc);
    hide Segment, Pop, Starts;
    var path := Path(segs);
    assert path != [] by { hide Path; }
    hide Path;
  }

  lemma DotsDone(out: string, rfc: bool)
    ensures Dots([], out, rfc) == out
  {
    hide Segment, Pop, Starts;
  }

  /** Whether a `..` among the segments has nothing on the stack to take off. */
  predicate Sinks(segs: seq<string>, stack: seq<string>) {
    segs != [] && ((segs[0] == ".." && stack == []) || Sinks(segs[1..], Pushed(segs[0], |segs| == 1, stack)))
  }

  /** What of a first segment `pre` is left after all the segments. */
  function Left(pre: string, segs: seq<string>, stack: seq<string>, rfc: bool): string {
    if rfc && Sinks(segs, stack) then [] else pre
  }

  function After(pre: string, s: string, stack: seq<string>, rfc: bool): string {
    if s == ".." then Under(pre, stack, rfc) else pre
  }

  /** The loop's step, on the path, is the stack's step. */
  lemma StackStep(pre: string, segs: seq<string>, stack: seq<string>, rfc: bool)
    requires segs != [] && Flat(segs) && Flat(stack) && '/' !in pre
    ensures Dots(Path(segs), pre + Render(stack), rfc)
         == Dots(Path(segs[1..]), After(pre, segs[0], stack, rfc) + Render(Pushed(segs[0], |segs| == 1, stack)), rfc)
  {
    hide Dots, Pop, Render, Path, Flat, Popped, Under;
    FirstStep(segs, pre + Render(stack), rfc);
    var s := segs[0];
    if s != "." && s != ".." {
      RenderOver(pre, stack, s);
    } else {
      PopRendered(pre, stack, rfc);
      var kept := if s == "." then stack else Popped(stack);
      if |segs| == 1 {
        var out := After(pre, s, stack, rfc);
        RenderOver(out, kept, "");
        LastPath(segs);
        DotsDone(out + Render(kept) + (['/'] + ""), rfc);
      }
    }
  }

  lemma LastPath(segs: seq<string>)
    requires |segs| == 1
    ensures Path(segs[1..]) == []
  {
  }

  lemma FlatParts(segs: seq<string>)
    requires Flat(segs) && segs != []
    ensures '/' !in segs[0] && Flat(segs[1..])
  {
    assert segs[0] in segs && forall t | t in segs[1..] :: t in segs;
  }

  /** On every absolute path, and behind any first segment, the loop is the segment-stack reading; where
      Relaunch and the RFC part is what is left of that first segment. */
  lemma {:induction false} DotsIsStack(pre: string, segs: seq<string>, stack: seq<string>, rfc: bool)
    requires Flat(segs) && Flat(stack) && '/' !in pre
    ensures Dots(Path(segs), pre + Render(stack), rfc) == Left(pre, segs, stack, rfc) + Render(Resolve(segs, stack))
    decreases |segs|
  {
    hide Dots, Render, Flat, Pushed;
    if segs == [] {
      DotsDone(pre + Render(stack), rfc);
    } else {
      var next := Pushed(segs[0], |segs| == 1, stack);
      StackStep(pre, segs, stack, rfc);
      FlatParts(segs);
      FlatPushed(segs[0], |segs| == 1, stack);
      DotsIsStack(After(pre, segs[0], stack, rfc), segs[1..], next, rfc);
    }
  }

  predicate Dotless(segs: seq<string>) { forall s | s in segs :: s != "." && s != ".." }

  lemma {:induction false} ResolveDotless(segs: seq<string>, stack: seq<string>)
    requires Flat(segs) && Flat(stack) && Dotless(stack)
    ensures Flat(Resolve(segs, stack)) && Dotless(Resolve(segs, stack))
    ensures segs != [] ==> Resolve(segs, stack) != []
    decreases |segs|
  {
    if segs != [] {
      FlatParts(segs);
      FlatPushed(segs[0], |segs| == 1, stack);
      DotlessPushed(segs[0], |segs| == 1, stack);
      hide Flat, Dotless;
      ResolveDotless(segs[1..], Pushed(segs[0], |segs| == 1, stack));
      if |segs| == 1 { assert Resolve(segs, stack) == Pushed(segs[0], true, stack); }
    }
  }

  lemma DotlessPushed(s: string, last: bool, stack: seq<string>)
    requires Dotless(stack)
    ensures Dotless(Pushed(s, last, stack)) && (last ==> Pushed(s, last, stack) != [])
  {
    var kept := if s == "." then stack else Popped(stack);
    assert "" != "." && "" != "..";
    assert forall t | t in kept :: t in stack;
  }

  /** With no dots in it, a path is its own reading. */
  lemma {:induction false} ResolveSame(segs: seq<string>, stack: seq<string>)
    requires Dotless(segs)
    ensures Resolve(segs, stack) == stack + segs
    decreases |segs|
  {
    if segs != [] {
      assert segs[0] in segs && forall t | t in segs[1..] :: t in segs;
      ResolveSame(segs[1..], stack + [segs[0]]);
      assert stack + [segs[0]] + segs[1..] == stack + segs;
    }
  }

  lemma {:induction false} RenderFront(segs: seq<string>)
    requires segs != []
    ensures Render(segs) == ['/'] + segs[0] + Render(segs[1..])
  {
    if |segs| == 1 {
      RenderOne(segs[0]);
      assert segs == [segs[0]] && segs[1..] == [];
    } else {
      hide Render;
      var (init, last) := (segs[..|segs| - 1], segs[|segs| - 1]);
      RenderFront(init);
      assert init[1..] + [last] == segs[1..] && init + [last] == segs;
      RenderMore(init[1..], last);
      RenderMore(init, last);
    }
  }

  lemma RenderOne(s: string)
    ensures Render([s]) == ['/'] + s + Render([])
  {
    RenderMore([], s);
    assert [] + [s] == [s] && [] + (['/'] + s) == ['/'] + s + [];
  }

  lemma {:induction false} RenderIsPath(segs: seq<string>)
    ensures Render(segs) == Path(segs)
  {
    if segs != [] {
      RenderIsPath(segs[1..]);
      RenderFront(segs);
    }
  }

  function Segments(path: string): seq<string>
    requires path != []
  {
    Split(path[1..], '/')
  }

  predicate Absolute(path: string) { path != [] && path[0] == '/' }

  lemma AbsoluteIs(path: string)
    requires Absolute(path)
    ensures Flat(Segments(path)) && Path(Segments(path)) == path
  {
    SplitParts(path[1..], '/');
    assert path == ['/'] + path[1..];
  }

  /** Every absolute path is normalised to its segment-stack reading: absolute again, and with no dot
      segment left in it. */
  lemma AbsoluteDots(path: string)
    requires Absolute(path)
    ensures var (out, stack) := (Dots(path, [], false), Resolve(Segments(path), []));
            && Absolute(out) && Segments(out) == stack && Dotless(stack)
  {
    AbsoluteIs(path);
    var segs := Segments(path);
    DotsIsStack([], segs, [], false);
    assert [] + Render([]) == [] && [] + Render(Resolve(segs, [])) == Render(Resolve(segs, []));
    ResolveDotless(segs, []);
    var stack := Resolve(segs, []);
    RenderIsPath(stack);
    SplitJoin(stack, '/');
    hide Dots, Resolve, Split;
    assert Path(stack)[1..] == Join(stack, '/');
  }

  /** Normalising twice changes nothing more. */
  lemma DotsIdempotent(path: string)
    requires Absolute(path)
    ensures Dots(Dots(path, [], false), [], false) == Dots(path, [], false)
  {
    AbsoluteDots(path);
    var out := Dots(path, [], false);
    AbsoluteDots(out);
    ResolveSame(Segments(out), []);
    AbsoluteIs(out);
    AbsoluteIs(Dots(out, [], false));
    hide Dots, Resolve, Segments, Path;
    assert [] + Segments(out) == Segments(out);
  }

  // ------------------------------------------------------------- any path at all

  /** Dot segments at the front are dropped; the next segment is then only ever taken off by the RFC. */
  function Reading(segs: seq<string>, rfc: bool): string {
    if segs == [] then []
    else if segs[0] == "." || segs[0] == ".." then Reading(segs[1..], rfc)
    else Left(segs[0], segs[1..], [], rfc) + Render(Resolve(segs[1..], []))
  }

  /** A relative path, by its first segment. */
  lemma RelativeShape(segs: seq<string>)
    requires segs != [] && Flat(segs)
    ensures Join(segs, '/') == segs[0] + Path(segs[1..])
    ensures |segs| > 1 ==> Join(segs, '/') == segs[0] + ['/'] + Join(segs[1..], '/')
  {
    JoinCons(segs[0], segs[1..], '/');
    assert segs == [segs[0]] + segs[1..];
    if |segs| > 1 {
      assert segs[0] + (['/'] + Join(segs[1..], '/')) == segs[0] + ['/'] + Join(segs[1..], '/');
    } else {
      assert segs[0] + [] == segs[0];
    }
  }

  /** A dot segment at the front goes, and its slash with it. */
  lemma FrontDot(segs: seq<string>, rfc: bool)
    requires segs != [] && Flat(segs) && (segs[0] == "." || segs[0] == "..")
    ensures Dots(Join(segs, '/'), [], rfc) == if |segs| == 1 then [] else Dots(Join(segs[1..], '/'), [], rfc)
  {
    var (path, s) := (Join(segs, '/'), segs[0]);
    RelativeShape(segs);
    hide Segment, Pop, Join, Path;
    if |segs| > 1 {
      var rest := Join(segs[1..], '/');
      assert path == s + ['/'] + rest;
      assert path[|s| + 1..] == rest && path[0] == '.' && path[|s|] == '/';
      if s == "." {
        assert path[..2] == "./" && !Starts(path, "../") by { assert path[1] == '/' && "../"[1] == '.'; }
      } else {
        assert path[..3] == "../";
      }
    } else {
      assert path == s + [];
    }
  }

  lemma FrontSegment(segs: seq<string>, rfc: bool)
    requires segs != [] && Flat(segs) && segs[0] != "" && segs[0] != "." && segs[0] != ".."
    ensures Dots(Join(segs, '/'), [], rfc) == Dots(Path(segs[1..]), segs[0], rfc)
  {
    var (path, s) := (Join(segs, '/'), segs[0]);
    RelativeShape(segs);
    SplitJoin(segs, '/');
    NotDots(s, Path(segs[1..]));
    hide Pop, Join, Path, Split, Starts;
    FlatParts(segs);
    assert s[0] in s && path[0] == s[0] != '/';
    assert Segment(path) == s && path[|s|..] == Path(segs[1..]);
    FrontIsMoved(path, rfc);
    assert [] + s == s;
  }

  /** No prefix the loop looks for begins a path whose first segment is ordinary. */
  predicate Plain(path: string) {
    && path != [] && !Starts(path, "../") && !Starts(path, "./") && !Starts(path, "/./") && path != "/."
    && !Starts(path, "/../") && path != "/.." && path != "." && path != ".."
  }

  lemma FrontIsMoved(path: string, rfc: bool)
    requires Plain(path)
    ensures Dots(path, [], rfc) == Dots(path[|Segment(path)|..], [] + Segment(path), rfc)
  {
    hide Segment, Pop, Starts;
  }

  lemma StartsExact(s: string, p: string)
    ensures Starts(s, p) <==> |p| <= |s| && forall i | 0 <= i < |p| :: s[i] == p[i]
  {
  }

  lemma NotDots(s: string, tail: string)
    requires '/' !in s && s != "" && s != "." && s != ".." && (tail == [] || tail[0] == '/')
    ensures Plain(s + tail)
  {
    var path := s + tail;
    assert path[0] == s[0] && s[0] in s;
    NotOneDot(s, tail);
    NotTwoDots(s, tail);
    StartsExact(path, "/./");
    StartsExact(path, "/../");
    hide Starts;
  }

  lemma NotOneDot(s: string, tail: string)
    requires '/' !in s && s != "" && s != "." && (tail == [] || tail[0] == '/')
    ensures !Starts(s + tail, "./") && s + tail != "."
  {
    var path := s + tail;
    StartsExact(path, "./");
    hide Starts;
    assert path[0] == s[0] && (|path| > 1 ==> path[1] == if |s| > 1 then s[1] else tail[0]);
    assert |s| > 1 ==> s[1] in s;
    assert |s| == 1 && s[0] == '.' ==> s == ".";
  }

  lemma NotTwoDots(s: string, tail: string)
    requires '/' !in s && s != "" && s != ".." && (tail == [] || tail[0] == '/')
    ensures !Starts(s + tail, "../") && s + tail != ".."
  {
    var path := s + tail;
    StartsExact(path, "../");
    hide Starts;
    assert path[0] == s[0] && (|path| > 1 ==> path[1] == if |s| > 1 then s[1] else tail[0]);
    assert |path| > 2 && |s| > 1 ==> path[2] == if |s| > 2 then s[2] else tail[0];
    assert |s| > 2 ==> s[2] in s;
    assert |s| == 2 && s[0] == '.' && s[1] == '.' ==> s == "..";
  }

  /** What the loop makes of every path, absolute or not. */
  lemma {:induction false} AnyPath(segs: seq<string>, rfc: bool)
    requires segs != [] && Flat(segs)
    ensures Dots(Join(segs, '/'), [], rfc) == Reading(segs, rfc)
    decreases |segs|
  {
    hide Dots, Join, Path, Render, Resolve, Left;
    FlatParts(segs);
    if segs[0] == "." || segs[0] == ".." {
      FrontDot(segs, rfc);
      if |segs| > 1 { AnyPath(segs[1..], rfc); }
    } else {
      if segs[0] == "" { EmptyFront(segs); } else { FrontSegment(segs, rfc); }
      assert segs[0] + Render([]) == segs[0] by { EmptyRender(); assert segs[0] + [] == segs[0]; }
      FlatNone();
      DotsIsStack(segs[0], segs[1..], [], rfc);
    }
  }

  lemma EmptyFront(segs: seq<string>)
    requires segs != [] && Flat(segs) && segs[0] == ""
    ensures Join(segs, '/') == Path(segs[1..])
  {
    RelativeShape(segs);
    assert [] + Path(segs[1..]) == Path(segs[1..]);
  }

  lemma EmptyRender()
    ensures Render([]) == []
  {
  }

  lemma FlatNone()
    ensures Flat([])
  {
  }

  /** The first segment that is not a dot is there, is not empty, and some `..` after it has only that
      segment to take off. */
  predicate FirstIsLost(segs: seq<string>) {
    segs != [] && if segs[0] == "." || segs[0] == ".." then FirstIsLost(segs[1..])
        else segs[0] != "" && Sinks(segs[1..], [])
  }

  lemma {:induction false} ReadingDiffers(segs: seq<string>)
    ensures Reading(segs, false) == Reading(segs, true) <==> !FirstIsLost(segs)
  {
    hide Render, Resolve, Sinks;
    if segs != [] && (segs[0] == "." || segs[0] == "..") {
      ReadingDiffers(segs[1..]);
    } else if segs != [] {
      var tail := Render(Resolve(segs[1..], []));
      assert |segs[0] + tail| == |segs[0]| + |tail| && |"" + tail| == |tail|;
    }
  }

  /** The loop is RFC 3986's, to the letter, on every path but those with a `..` that reaches a relative
      first segment: there the RFC takes that segment off and Relaunch keeps it. */
  lemma FollowsTheRfc(path: string)
    ensures Dots(path, [], false) == Dots(path, [], true) <==> !FirstIsLost(Split(path, '/'))
  {
    hide Dots, FirstIsLost, Reading, Join;
    SplitParts(path, '/');
    AnyPath(Split(path, '/'), false);
    AnyPath(Split(path, '/'), true);
    ReadingDiffers(Split(path, '/'));
  }

  /** So it always is on an absolute path, the only kind its caller has, ... */
  lemma AbsoluteFollows(path: string)
    requires Absolute(path)
    ensures Dots(path, [], false) == Dots(path, [], true)
  {
    hide Dots;
    FollowsTheRfc(path);
    assert Split(path, '/')[0] == "";
  }

  /** ... and not on, say, this one. */
  lemma RelativeDiffers()
    ensures Dots("a/../b", [], false) == "a/b"
    ensures Dots("a/../b", [], true) == "/b"
  {
    hide Dots;
    var segs := ["a", "..", "b"];
    assert Join(segs, '/') == "a/../b" && Flat(segs);
    AnyPath(segs, false);
    AnyPath(segs, true);
    assert segs[1..] == ["..", "b"] && ["..", "b"][1..] == ["b"];
    assert Resolve(segs[1..], []) == Resolve(["b"], []) == ["b"];
  }
}
