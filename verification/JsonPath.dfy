/**
 Splitting a JSON path at unescaped dots. The loop drops empty segments and the backslash
 of an escape; an escape at the very end of the path stands for nothing.
 */
module JsonPath {
  /** The loop variables: finished segments, the segment being built, and the escape flag. */
  datatype Scan = Scan(segments: seq<string>, current: string, escaped: bool)

  const START := Scan([], "", false)

  function Closed(s: Scan): seq<string> {
    if s.current == "" then s.segments else s.segments + [s.current]
  }

  function Feed(s: Scan, ch: char): Scan {
    if s.escaped then s.(current := s.current + [ch], escaped := false)
    else if ch == '\\' then s.(escaped := true)
    else if ch == '.' then Scan(Closed(s), "", false)
    else s.(current := s.current + [ch])
  }

  function FeedAll(s: Scan, path: string): Scan {
    if path == [] then s else Feed(FeedAll(s, path[..|path| - 1]), path[|path| - 1])
  }

  function Split(path: string): seq<string> {
    Closed(FeedAll(START, path))
  }

  method SplitJSONPath(path: string) returns (segments: seq<string>)
    ensures segments == Split(path)
  {
    segments := [];
    var current: string := "";
    var escaped := false;
    for i := 0 to |path|
      invariant Scan(segments, current, escaped) == FeedAll(START, path[..i])
    {
      var ch := path[i];
      assert path[..i + 1][..i] == path[..i];
      if escaped {
        current := current + [ch];
        escaped := false;
        continue;
      }
      if ch == '\\' {
        escaped := true;
        continue;
      }
      if ch == '.' {
        if |current| > 0 {
          segments := segments + [current];
          current := "";
        }
        continue;
      }
      current := current + [ch];
    }
    assert path[..|path|] == path;
    if |current| > 0 {
      segments := segments + [current];
    }
  }

  // ----- rendering -----

  function Escape(segment: string): string {
    if segment == [] then []
    else
      var rest, ch := Escape(segment[..|segment| - 1]), segment[|segment| - 1];
      if ch == '.' || ch == '\\' then rest + ['\\', ch] else rest + [ch]
  }

  /** Dot-joins the escaped segments. */
  function Render(segments: seq<string>): string {
    if segments == [] then []
    else if |segments| == 1 then Escape(segments[0])
    else Render(segments[..|segments| - 1]) + "." + Escape(segments[|segments| - 1])
  }

  lemma {:induction false} FeedConcat(s: Scan, a: string, b: string)
    ensures FeedAll(s, a + b) == FeedAll(FeedAll(s, a), b)
  {
    if b == [] {
      assert a + b == a;
    } else {
      FeedConcat(s, a, b[..|b| - 1]);
      assert (a + b)[..|a + b| - 1] == a + b[..|b| - 1];
    }
  }

  lemma FeedOne(s: Scan, ch: char)
    ensures FeedAll(s, [ch]) == Feed(s, ch)
  {
    assert [ch][..0] == [];
  }

  /** Reading an escaped segment appends exactly that segment. */
  lemma {:induction false} FeedEscaped(s: Scan, segment: string)
    requires !s.escaped
    ensures FeedAll(s, Escape(segment)) == s.(current := s.current + segment)
  {
    if segment == [] {
      assert s.current + segment == s.current;
    } else {
      var init, ch := segment[..|segment| - 1], segment[|segment| - 1];
      FeedEscaped(s, init);
      var mid := s.(current := s.current + init);
      assert s.current + init + [ch] == s.current + segment;
      if ch == '.' || ch == '\\' {
        FeedConcat(s, Escape(init), ['\\', ch]);
        assert ['\\', ch] == ['\\'] + [ch];
        FeedConcat(mid, ['\\'], [ch]);
        FeedOne(mid, '\\');
        FeedOne(Feed(mid, '\\'), ch);
      } else {
        FeedConcat(s, Escape(init), [ch]);
        FeedOne(mid, ch);
      }
    }
  }

  ghost predicate NonEmpty(segments: seq<string>) {
    forall i :: 0 <= i < |segments| ==> segments[i] != ""
  }

  lemma {:induction false} FeedRendered(segments: seq<string>)
    requires segments != [] && NonEmpty(segments)
    ensures FeedAll(START, Render(segments)) == Scan(segments[..|segments| - 1], segments[|segments| - 1], false)
  {
    var n := |segments| - 1;
    if n == 0 {
      FeedEscaped(START, segments[0]);
      assert "" + segments[0] == segments[0];
    } else {
      FeedRendered(segments[..n]);
      var before := Scan(segments[..n][..n - 1], segments[..n][n - 1], false);
      assert segments[..n][..n - 1] + [segments[..n][n - 1]] == segments[..n];
      FeedConcat(START, Render(segments[..n]) + ".", Escape(segments[n]));
      FeedConcat(START, Render(segments[..n]), ".");
      FeedOne(before, '.');
      FeedEscaped(Scan(segments[..n], "", false), segments[n]);
      assert "" + segments[n] == segments[n];
    }
  }

  /** Splitting undoes rendering, for every list of non-empty segments. */
  lemma SplitRender(segments: seq<string>)
    requires NonEmpty(segments)
    ensures Split(Render(segments)) == segments
  {
    if segments != [] {
      FeedRendered(segments);
      assert segments[..|segments| - 1] + [segments[|segments| - 1]] == segments;
    }
  }

  lemma {:induction false} ScanNonEmpty(path: string)
    ensures NonEmpty(FeedAll(START, path).segments)
  {
    if path != [] {
      ScanNonEmpty(path[..|path| - 1]);
    }
  }

  /** Every path splits into non-empty segments, and rendering them gives a path that splits the same way. */
  lemma RenderSplit(path: string)
    ensures NonEmpty(Split(path))
    ensures Split(Render(Split(path))) == Split(path)
  {
    ScanNonEmpty(path);
    SplitRender(Split(path));
  }
}
