/** `Router`: routes under `/api/{version}` whose `{name}` placeholders
    capture one path segment, tried in the order they were added. */
module Router {
  import opened Wrappers
  import opened PhpStrings

  // ---------------------------------------------------------------------
  // Route templates

  /** A template, once `preg_replace('/\{[a-zA-Z0-9_]+\}/', '([a-zA-Z0-9_-]+)', ...)`
      has turned its placeholders into capturing groups: literal
      characters and groups. */
  datatype Token = Lit(c: char) | Group

  /** A character of a placeholder's name. */
  predicate IsNameChar(c: char) { IsAlnum(c) || c == '_' }

  /** A character a group matches. */
  predicate IsSegmentChar(c: char) { IsAlnum(c) || c == '_' || c == '-' }

  /** The number of name characters `s` starts with. */
  function NameRun(s: string): (r: nat)
    ensures r <= |s|
    ensures forall i :: 0 <= i < r ==> IsNameChar(s[i])
    ensures r == |s| || !IsNameChar(s[r])
  {
    if s != [] && IsNameChar(s[0]) then 1 + NameRun(s[1..]) else 0
  }

  /** The template after the placeholders are replaced, scanning from the
      left: a `{` opens a placeholder only when one or more name characters
      and a `}` follow it. */
  function Tokens(path: string): seq<Token>
    decreases |path|
  {
    if path == [] then []
    else if path[0] == '{' && 1 <= NameRun(path[1..]) && 1 + NameRun(path[1..]) < |path|
            && path[1 + NameRun(path[1..])] == '}' then
      [Group] + Tokens(path[2 + NameRun(path[1..])..])
    else [Lit(path[0])] + Tokens(path[1..])
  }

  function GroupCount(toks: seq<Token>): nat {
    if toks == [] then 0 else (if toks[0].Group? then 1 else 0) + GroupCount(toks[1..])
  }

  /** One or more characters a group matches. */
  predicate IsSegment(w: string) {
    |w| >= 1 && forall j :: 0 <= j < |w| ==> IsSegmentChar(w[j])
  }

  /** The path a template describes once every group is given its text. */
  function Fill(toks: seq<Token>, caps: seq<string>): string
    requires |caps| == GroupCount(toks)
  {
    if toks == [] then ""
    else if toks[0].Group? then caps[0] + Fill(toks[1..], caps[1..])
    else [toks[0].c] + Fill(toks[1..], caps)
  }

  // ---------------------------------------------------------------------
  // preg_match('#^' . pattern . '$#', $uri, $matches)

  /** The number of group characters `s` starts with. */
  function Run(s: string): (r: nat)
    ensures r <= |s|
    ensures forall i :: 0 <= i < r ==> IsSegmentChar(s[i])
    ensures r == |s| || !IsSegmentChar(s[r])
  {
    if s != [] && IsSegmentChar(s[0]) then 1 + Run(s[1..]) else 0
  }

  /** The captures of an anchored match of the template against `s`, as the
      backtracking matcher finds them: each group takes as many characters
      as it can such that the rest still matches; `$` matches at the end or
      before a final newline. */
  function MatchFrom(toks: seq<Token>, s: string): Option<seq<string>>
    decreases |toks|, |s| + 1
  {
    if toks == [] then (if s == "" || s == "\n" then Some([]) else None)
    else if toks[0].Lit? then
      (if s != [] && s[0] == toks[0].c then MatchFrom(toks[1..], s[1..]) else None)
    else TryRuns(toks[1..], s, Run(s))
  }

  /** A group followed by `rest`, trying the lengths n, n-1, ..., 1. */
  function TryRuns(rest: seq<Token>, s: string, n: nat): Option<seq<string>>
    requires n <= |s|
    decreases |rest| + 1, n
  {
    if n == 0 then None
    else match MatchFrom(rest, s[n..])
      case Some(caps) => Some([s[..n]] + caps)
      case None => TryRuns(rest, s, n - 1)
  }

  /** `caps` are captures for `s`: one segment per group, and filling them
      in gives `s`, up to a final newline. */
  predicate Explains(toks: seq<Token>, s: string, caps: seq<string>) {
    && |caps| == GroupCount(toks)
    && (forall i :: 0 <= i < |caps| ==> IsSegment(caps[i]))
    && (Fill(toks, caps) == s || Fill(toks, caps) + "\n" == s)
  }

  /** Every match found explains the path. */
  lemma {:induction false} MatchSound(toks: seq<Token>, s: string)
    ensures MatchFrom(toks, s).Some? ==> Explains(toks, s, MatchFrom(toks, s).value)
    decreases |toks|, |s| + 1
  {
    if toks != [] && MatchFrom(toks, s).Some? {
      var caps := MatchFrom(toks, s).value;
      if toks[0].Lit? {
        MatchSound(toks[1..], s[1..]);
        ExplainsLit(toks, s, caps);
      } else {
        TryRunsSound(toks[1..], s, Run(s));
        var w := caps[0];
        ExplainsGroup(toks, w, s[|w|..], caps[1..]);
        assert s == w + s[|w|..];
        assert caps == [w] + caps[1..];
      }
    }
  }

  lemma ExplainsLit(toks: seq<Token>, s: string, caps: seq<string>)
    requires toks != [] && toks[0].Lit? && s != [] && s[0] == toks[0].c
    requires Explains(toks[1..], s[1..], caps)
    ensures Explains(toks, s, caps)
  {
    assert s == [s[0]] + s[1..];
  }

  lemma ExplainsGroup(toks: seq<Token>, w: string, rest: string, caps: seq<string>)
    requires toks != [] && toks[0].Group? && IsSegment(w)
    requires Explains(toks[1..], rest, caps)
    ensures Explains(toks, w + rest, [w] + caps)
  {
    var all := [w] + caps;
    assert all[1..] == caps;
    assert forall i :: 1 <= i < |all| ==> all[i] == caps[i - 1];
    assert Fill(toks, all) == w + Fill(toks[1..], caps);
  }

  lemma {:induction false} TryRunsSound(rest: seq<Token>, s: string, n: nat)
    requires n <= Run(s)
    ensures TryRuns(rest, s, n).Some? ==>
              var caps := TryRuns(rest, s, n).value;
              && |caps| >= 1 && IsSegment(caps[0]) && |caps[0]| <= |s| && caps[0] == s[..|caps[0]|]
              && Explains(rest, s[|caps[0]|..], caps[1..])
    decreases |rest| + 1, n
  {
    if n > 0 {
      MatchSound(rest, s[n..]);
      if MatchFrom(rest, s[n..]).None? {
        TryRunsSound(rest, s, n - 1);
      } else {
        var caps := TryRuns(rest, s, n).value;
        assert caps[0] == s[..n] && caps[1..] == MatchFrom(rest, s[n..]).value;
      }
    }
  }

  /** A longer run of group characters is failed over to a shorter one
      that works. */
  lemma {:induction false} TryRunsReaches(rest: seq<Token>, s: string, n: nat, m: nat)
    requires 1 <= m <= n <= |s| && MatchFrom(rest, s[m..]).Some?
    ensures TryRuns(rest, s, n).Some?
    decreases n
  {
    if n > m && MatchFrom(rest, s[n..]).None? {
      TryRunsReaches(rest, s, n - 1, m);
    }
  }

  /** A segment followed by something else starts a run at least as long. */
  lemma {:induction false} RunCovers(w: string, t: string)
    requires forall j :: 0 <= j < |w| ==> IsSegmentChar(w[j])
    ensures Run(w + t) >= |w|
    ensures t == [] || !IsSegmentChar(t[0]) ==> Run(w + t) == |w|
    decreases |w|
  {
    if w != [] {
      assert (w + t)[1..] == w[1..] + t;
      RunCovers(w[1..], t);
    } else {
      assert w + t == t;
    }
  }

  /** Every path the template describes is matched. */
  lemma {:induction false} MatchComplete(toks: seq<Token>, caps: seq<string>, tail: string)
    requires |caps| == GroupCount(toks) && forall i :: 0 <= i < |caps| ==> IsSegment(caps[i])
    requires tail == "" || tail == "\n"
    ensures MatchFrom(toks, Fill(toks, caps) + tail).Some?
    decreases |toks|
  {
    if toks != [] {
      var s := Fill(toks, caps) + tail;
      if toks[0].Lit? {
        var rest := Fill(toks[1..], caps) + tail;
        assert s == [toks[0].c] + rest;
        MatchComplete(toks[1..], caps, tail);
        LitStep(toks, rest);
      } else {
        var rest := Fill(toks[1..], caps[1..]) + tail;
        assert s == caps[0] + rest;
        SegmentsTail(caps);
        MatchComplete(toks[1..], caps[1..], tail);
        GroupStep(toks, caps[0], rest);
      }
    }
  }

  /** A literal token consumes exactly its own character. */
  lemma LitStep(toks: seq<Token>, rest: string)
    requires toks != [] && toks[0].Lit?
    ensures MatchFrom(toks, [toks[0].c] + rest) == MatchFrom(toks[1..], rest)
  {
    assert ([toks[0].c] + rest)[1..] == rest;
  }

  /** A group followed by a matching rest matches a segment then that rest. */
  lemma GroupStep(toks: seq<Token>, w: string, rest: string)
    requires toks != [] && toks[0].Group? && IsSegment(w)
    requires MatchFrom(toks[1..], rest).Some?
    ensures MatchFrom(toks, w + rest).Some?
  {
    var s := w + rest;
    RunCovers(w, rest);
    assert s[|w|..] == rest;
    TryRunsReaches(toks[1..], s, Run(s), |w|);
  }

  lemma SegmentsTail(caps: seq<string>)
    requires |caps| >= 1 && forall i :: 0 <= i < |caps| ==> IsSegment(caps[i])
    ensures forall i :: 0 <= i < |caps[1..]| ==> IsSegment(caps[1..][i])
  {
    forall i | 0 <= i < |caps[1..]| ensures IsSegment(caps[1..][i]) { assert caps[1..][i] == caps[i + 1]; }
  }

  /** Groups are delimited: each is followed by the end or by a literal
      character a group cannot match, such as `/`. */
  predicate Delimited(toks: seq<Token>) {
    forall i :: 0 <= i < |toks| && toks[i].Group? ==>
      i + 1 == |toks| || (toks[i + 1].Lit? && !IsSegmentChar(toks[i + 1].c))
  }

  /** With delimited groups the captures are exactly the segments the path
      was built from. */
  lemma {:induction false} MatchExact(toks: seq<Token>, caps: seq<string>)
    requires Delimited(toks)
    requires |caps| == GroupCount(toks) && forall i :: 0 <= i < |caps| ==> IsSegment(caps[i])
    ensures MatchFrom(toks, Fill(toks, caps)) == Some(caps)
    decreases |toks|
  {
    if toks != [] {
      var s := Fill(toks, caps);
      assert Delimited(toks[1..]) by {
        forall i | 0 <= i < |toks[1..]| && toks[1..][i].Group?
          ensures i + 1 == |toks[1..]| || (toks[1..][i + 1].Lit? && !IsSegmentChar(toks[1..][i + 1].c))
        {
          assert toks[1..][i] == toks[i + 1];
        }
      }
      if toks[0].Lit? {
        assert s[1..] == Fill(toks[1..], caps);
        MatchExact(toks[1..], caps);
      } else {
        var rest := Fill(toks[1..], caps[1..]);
        assert s == caps[0] + rest;
        SegmentsTail(caps);
        MatchExact(toks[1..], caps[1..]);
        if |toks| > 1 {
          assert toks[1].Lit? && !IsSegmentChar(toks[1].c);
          assert rest[0] == toks[1].c;
        }
        RunCovers(caps[0], rest);
        assert s[|caps[0]|..] == rest && s[..|caps[0]|] == caps[0];
        assert [caps[0]] + caps[1..] == caps;
      }
    }
  }

  /** A template without `{` is all literal: it describes itself only. */
  lemma {:induction false} LiteralTemplate(path: string)
    requires '{' !in path
    ensures GroupCount(Tokens(path)) == 0 && Delimited(Tokens(path))
    ensures Fill(Tokens(path), []) == path
    decreases |path|
  {
    if path != [] {
      assert path[0] in path;
      LiteralTemplate(path[1..]);
      assert Tokens(path) == [Lit(path[0])] + Tokens(path[1..]);
      assert path == [path[0]] + path[1..];
    }
  }

  /** A literal prefix followed by a placeholder: the prefix's characters,
      then one group. */
  lemma {:induction false} PrefixThenPlaceholder(prefix: string, name: string)
    requires '{' !in prefix && |name| >= 1 && forall j :: 0 <= j < |name| ==> IsNameChar(name[j])
    ensures Tokens(prefix + "{" + name + "}") == Tokens(prefix) + [Group]
    decreases |prefix|
  {
    var path := prefix + "{" + name + "}";
    if prefix == [] {
      assert path == "{" + name + "}";
      assert path[1..] == name + "}";
      NameRunOf(name, "}");
      assert path[2 + |name|..] == [];
    } else {
      assert prefix[0] in prefix;
      assert path[0] == prefix[0] && path[1..] == prefix[1..] + "{" + name + "}";
      PrefixThenPlaceholder(prefix[1..], name);
    }
  }

  lemma {:induction false} NameRunOf(name: string, t: string)
    requires forall j :: 0 <= j < |name| ==> IsNameChar(name[j])
    requires t == [] || !IsNameChar(t[0])
    ensures NameRun(name + t) == |name|
    decreases |name|
  {
    if name != [] {
      assert (name + t)[1..] == name[1..] + t;
      NameRunOf(name[1..], t);
    } else {
      assert name + t == t;
    }
  }

  /** A template made of a literal prefix ending in `/` and one
      placeholder matches that prefix followed by any one segment, and
      captures exactly that segment. */
  lemma PlaceholderCaptures(prefix: string, name: string, w: string)
    requires '{' !in prefix && |prefix| >= 1 && prefix[|prefix| - 1] == '/'
    requires |name| >= 1 && forall j :: 0 <= j < |name| ==> IsNameChar(name[j])
    requires IsSegment(w)
    ensures MatchFrom(Tokens(prefix + "{" + name + "}"), prefix + w) == Some([w])
  {
    PrefixThenPlaceholder(prefix, name);
    LiteralTemplate(prefix);
    var toks := Tokens(prefix) + [Group];
    FillAppendGroup(Tokens(prefix), w);
    LastLiteral(prefix);
    MatchExact(toks, [w]);
  }

  /** The short-link statistics route `/api/v1/stats/{code}` captures
      exactly the code, for every code of letters and digits. */
  lemma StatsRouteCapturesCode(code: string)
    requires IsSegment(code)
    ensures MatchFrom(Tokens("/api/v1/stats/{code}"), "/api/v1/stats/" + code) == Some([code])
  {
    var prefix := "/api/v1/stats/";
    assert "/api/v1/stats/{code}" == prefix + "{" + "code" + "}";
    PlaceholderCaptures(prefix, "code", code);
  }

  lemma {:induction false} GroupsAppend(a: seq<Token>, b: seq<Token>)
    ensures GroupCount(a + b) == GroupCount(a) + GroupCount(b)
    decreases |a|
  {
    if a != [] {
      assert (a + b)[1..] == a[1..] + b;
      GroupsAppend(a[1..], b);
    } else {
      assert a + b == b;
    }
  }

  lemma {:induction false} FillAppendGroup(a: seq<Token>, w: string)
    requires GroupCount(a) == 0
    ensures GroupCount(a + [Group]) == 1 && Fill(a + [Group], [w]) == Fill(a, []) + w
    decreases |a|
  {
    GroupsAppend(a, [Group]);
    if a != [] {
      assert (a + [Group])[1..] == a[1..] + [Group];
      FillAppendGroup(a[1..], w);
    } else {
      assert a + [Group] == [Group];
    }
  }

  /** The tokens of a literal template end with its last character. */
  lemma {:induction false} LastLiteral(path: string)
    requires '{' !in path && |path| >= 1
    ensures |Tokens(path)| == |path| && Tokens(path)[|path| - 1] == Lit(path[|path| - 1])
    decreases |path|
  {
    assert path[0] in path;
    if |path| > 1 {
      LastLiteral(path[1..]);
    }
  }

  // ---------------------------------------------------------------------
  // Routes and dispatch

  /** A registered route; `handler` names the callable. */
  datatype Route = Route(verb: string, path: string, handler: nat)

  /** What `dispatch` does: the handler of route `index` called with the
      captures in order, or the 404 "Ruta no encontrada" answer for `uri`. */
  datatype Outcome = Invoke(index: nat, handler: nat, args: seq<string>) | NotFound(uri: string)

  /** `rtrim($s, $c)` for one character. */
  function DropTrailing(s: string, c: char): (r: string)
    ensures |r| <= |s| && r == s[..|r|]
    ensures r == [] || r[|r| - 1] != c
    ensures forall i :: |r| <= i < |s| ==> s[i] == c
  {
    if s != [] && s[|s| - 1] == c then DropTrailing(s[..|s| - 1], c) else s
  }

  /** `ltrim($s, $c)` for one character. */
  function DropLeading(s: string, c: char): (r: string)
    ensures |r| <= |s| && r == s[|s| - |r|..]
    ensures r == [] || r[0] != c
    ensures forall i :: 0 <= i < |s| - |r| ==> s[i] == c
  {
    if s != [] && s[0] == c then DropLeading(s[1..], c) else s
  }

  /** The path the routes are matched against: the base path cut off when
      the URI starts with it (and PHP reads it as non-empty), then all
      leading slashes replaced by one. */
  function RequestPath(basePath: string, uri: string): (r: string)
    ensures |r| >= 1 && r[0] == '/' && (|r| == 1 || r[1] != '/')
    ensures |r| - 1 <= |uri| && r[1..] == uri[|uri| - (|r| - 1)..]
  {
    var u := if !IsEmptyString(basePath) && |basePath| <= |uri| && uri[..|basePath|] == basePath
             then uri[|basePath|..] else uri;
    "/" + DropLeading(u, '/')
  }

  /** A URI under the base path is matched without it. */
  lemma BasePathStripped(basePath: string, rest: string)
    requires !IsEmptyString(basePath)
    ensures RequestPath(basePath, basePath + rest) == "/" + DropLeading(rest, '/')
  {
    assert (basePath + rest)[..|basePath|] == basePath;
    assert (basePath + rest)[|basePath|..] == rest;
  }

  /** A URI that is not under the base path, or any URI when PHP reads the
      base path as empty ("" or "0"), keeps all of its text but its leading
      slashes. */
  lemma BasePathKept(basePath: string, uri: string)
    requires IsEmptyString(basePath) || !(|basePath| <= |uri| && uri[..|basePath|] == basePath)
    ensures RequestPath(basePath, uri) == "/" + DropLeading(uri, '/')
  {
  }

  /** `ltrim` leaves a string that does not start with the character as it is. */
  lemma DropLeadingNothing(s: string, c: char)
    requires s == [] || s[0] != c
    ensures DropLeading(s, c) == s
  {
  }

  /** A request path is already in the form `dispatch` gives: normalising
      it again, with no base path, leaves it as it is. */
  lemma RequestPathIdempotent(basePath: string, uri: string)
    ensures RequestPath("", RequestPath(basePath, uri)) == RequestPath(basePath, uri)
  {
    var r := RequestPath(basePath, uri);
    var t := r[1..];
    assert r == "/" + t;
    assert t == [] || t[0] != '/';
    DropLeadingNothing(t, '/');
    assert DropLeading(r, '/') == DropLeading(t, '/');
    BasePathKept("", r);
  }

  predicate RouteMatches(route: Route, verb: string, uri: string) {
    route.verb == verb && MatchFrom(Tokens(route.path), uri).Some?
  }

  /** The routes from `i` on, tried in order. */
  function SelectFrom(routes: seq<Route>, i: nat, verb: string, uri: string): (r: Outcome)
    decreases |routes| - i
  {
    if i >= |routes| then NotFound(uri)
    else if RouteMatches(routes[i], verb, uri) then
      Invoke(i, routes[i].handler, MatchFrom(Tokens(routes[i].path), uri).value)
    else SelectFrom(routes, i + 1, verb, uri)
  }

  /** The first route that matches wins, with its own captures; no route
      matches exactly when the answer is 404. */
  lemma {:induction false} SelectFirst(routes: seq<Route>, i: nat, verb: string, uri: string)
    requires i <= |routes|
    ensures match SelectFrom(routes, i, verb, uri)
            case NotFound(u) => u == uri && forall j :: i <= j < |routes| ==> !RouteMatches(routes[j], verb, uri)
            case Invoke(k, h, args) =>
              && i <= k < |routes| && RouteMatches(routes[k], verb, uri)
              && h == routes[k].handler && Some(args) == MatchFrom(Tokens(routes[k].path), uri)
              && forall j :: i <= j < k ==> !RouteMatches(routes[j], verb, uri)
    decreases |routes| - i
  {
    if i < |routes| && !RouteMatches(routes[i], verb, uri) {
      SelectFirst(routes, i + 1, verb, uri);
    }
  }

  class Router {
    var routes: seq<Route>
    var version: string
    var basePath: string

    /** `new Router($version, $basePath)`: trailing slashes are cut from the
        base path. */
    constructor (version: string, basePath: string)
      ensures this.routes == [] && this.version == version
      ensures this.basePath == DropTrailing(basePath, '/')
      ensures this.basePath == [] || this.basePath[|this.basePath| - 1] != '/'
    {
      this.routes := [];
      this.version := version;
      this.basePath := DropTrailing(basePath, '/');
    }

    /** `addRoute($method, $path, $handler)`: one route at the end, the
        method upper-cased and the path put under `/api/{version}`; the
        earlier routes stay as they were. */
    method AddRoute(verb: string, path: string, handler: nat)
      modifies this`routes
      ensures |routes| == |old(routes)| + 1 && routes[..|old(routes)|] == old(routes)
      ensures routes[|routes| - 1] == Route(Upper(verb), "/api/" + version + path, handler)
    {
      routes := routes + [Route(Upper(verb), "/api/" + version + path, handler)];
    }

    /** The route selection of `dispatch()` for a request with method
        `verb` and URI path `uri`. */
    method Dispatch(verb: string, uri: string) returns (r: Outcome)
      ensures r == SelectFrom(routes, 0, verb, RequestPath(basePath, uri))
    {
      var u := uri;
      if !IsEmptyString(basePath) && |basePath| <= |u| && u[..|basePath|] == basePath {
        u := u[|basePath|..];
      }
      u := "/" + DropLeading(u, '/');
      var i := 0;
      while i < |routes|
        invariant 0 <= i <= |routes|
        invariant SelectFrom(routes, 0, verb, u) == SelectFrom(routes, i, verb, u)
      {
        var route := routes[i];
        if route.verb == verb {
          var matches := MatchFrom(Tokens(route.path), u);
          if matches.Some? {
            return Invoke(i, route.handler, matches.value);
          }
        }
        i := i + 1;
      }
      r := NotFound(u);
    }
  }
}
