/** The query part of a request target. */
module Url {
  import opened Text

  type Params = map<string, string>

  // ---------------------------------------------------------------- specification

  /** Without '=', or with it at the very end only, the whole text is the key. */
  function Pair(param: string): (string, string) {
    var pos := Find(param, '=', 0);
    if pos == |param| || pos == |param| - 1 then (param, "")
    else (Strip(param[..pos]), param[pos + 1..])
  }

  /** The text cut at every '&'. */
  function Pieces(s: string): (r: seq<string>)
    decreases |s|
  {
    var p := Find(s, '&', 0);
    if p == |s| then [s] else [s[..p]] + Pieces(s[p + 1..])
  }

  /** The pieces are bound from left to right, a later key replacing an earlier one. */
  function Bind(params: Params, pieces: seq<string>): Params
    decreases |pieces|
  {
    if pieces == [] then params
    else
      var (k, v) := Pair(Strip(pieces[0]));
      Bind(params[k := v], pieces[1..])
  }

  datatype Query = Query(path: string, params: Params)

  function ParseQuery(q: string): Query {
    var pos := Find(q, '?', 0);
    if pos == |q| then Query(q, map[])
    else Query(q[..pos], Bind(map[], Pieces(Strip(q[pos + 1..]))))
  }

  // ---------------------------------------------------------------- implementation

  method ParseOne(param: string) returns (pk: string, pv: string)
    ensures (pk, pv) == Pair(param)
  {
    pk, pv := param, "";
    var equalPos := FindMethod(param, '=', 0);
    if equalPos == |param| || equalPos == |param| - 1 { return; }
    pk := ViewStripEmpty(param[..equalPos]);
    pv := param[equalPos + 1..];
  }

  /** The member `q` of a request. */
  class UrlQuery {
    var path: string
    var params: Params

    constructor ()
      ensures path == "" && params == map[]
    {
      path, params := "", map[];
    }

    function View(): Query
      reads this
    {
      Query(path, params)
    }

    method Parse(q: string) returns (ok: bool)
      requires path == "" && params == map[]
      modifies this
      ensures ok == (q != "") && View() == ParseQuery(q)
    {
      if q == "" { return false; }
      var pos := FindMethod(q, '?', 0);
      if pos == |q| {
        path := q;
        return true;
      }
      path := q[..pos];
      var paramsPart := ViewStripEmpty(q[pos + 1..]);
      ParseParams(paramsPart);
      return true;
    }

    /** The loop over the '&'-separated parts; the last part has no '&' behind it. */
    method ParseParams(s: string)
      modifies this`params
      ensures params == Bind(old(params), Pieces(s))
    {
      var idx, subBegin := 0, 0;
      ghost var all := Bind(params, Pieces(s));
      assert s[0..] == s;
      while idx < |s|
        invariant 0 <= subBegin <= idx <= |s|
        invariant forall k | subBegin <= k < idx :: s[k] != '&'
        invariant Binds(params, s[subBegin..], all)
      {
        if s[idx] == '&' {
          BindsNext(params, s, subBegin, idx, all);
          BindPart(s[subBegin..idx]);
          subBegin := idx + 1;
        }
        idx := idx + 1;
      }
      BindsLast(params, s[subBegin..], all);
      BindPart(s[subBegin..]);
    }

    method BindPart(part: string)
      modifies this`params
      ensures params == Bind(old(params), [part])
    {
      var param := ViewStripEmpty(part);
      var pk, pv := ParseOne(param);
      params := params[pk := pv];
      BindFirst(old(params), part, []);
    }
  }

  /** Binding the pieces of `s` gives `all`. */
  ghost predicate Binds(params: Params, s: string, all: Params) {
    match Pieces(s)
    case pieces => Bind(params, pieces) == all
  }

  lemma BindsNext(params: Params, s: string, begin: nat, idx: nat, all: Params)
    requires begin <= idx < |s| && s[idx] == '&' && forall k | begin <= k < idx :: s[k] != '&'
    requires Binds(params, s[begin..], all)
    ensures Binds(Bind(params, [s[begin..idx]]), s[idx + 1..], all)
  {
    PiecesFirst(s, begin, idx);
    BindFirst(params, s[begin..idx], Pieces(s[idx + 1..]));
  }

  lemma BindsLast(params: Params, s: string, all: Params)
    requires Binds(params, s, all) && forall k | 0 <= k < |s| :: s[k] != '&'
    ensures Bind(params, [s]) == all
  {
  }

  lemma BindFirst(params: Params, piece: string, rest: seq<string>)
    ensures Bind(params, [piece] + rest) == Bind(Bind(params, [piece]), rest)
    ensures var (k, v) := Pair(Strip(piece)); Bind(params, [piece]) == params[k := v]
  {
  }

  lemma PiecesFirst(s: string, begin: nat, idx: nat)
    requires begin <= idx < |s| && s[idx] == '&' && forall k | begin <= k < idx :: s[k] != '&'
    ensures Pieces(s[begin..]) == [s[begin..idx]] + Pieces(s[idx + 1..])
  {
    var t := s[begin..];
    FindIs(t, '&', 0, idx - begin);
    assert t[..idx - begin] == s[begin..idx] && t[idx - begin + 1..] == s[idx + 1..];
  }

  // ---------------------------------------------------------------- round trip

  /** Free of blanks and line ends. */
  ghost predicate Solid(s: string) {
    forall k | 0 <= k < |s| :: !IsSpace(s[k]) && s[k] != '\r' && s[k] != '\n'
  }

  ghost predicate GoodParam(p: (string, string)) {
    && Solid(p.0) && Without(p.0, '&') && Without(p.0, '=')
    && Solid(p.1) && Without(p.1, '&') && p.1 != ""
  }

  function PrintParam(p: (string, string)): string {
    p.0 + "=" + p.1
  }

  function PrintParams(ps: seq<(string, string)>): string
    requires ps != []
  {
    if |ps| == 1 then PrintParam(ps[0]) else PrintParam(ps[0]) + "&" + PrintParams(ps[1..])
  }

  /** Later duplicates of a key win. */
  function ParamMap(params: Params, ps: seq<(string, string)>): Params
    decreases |ps|
  {
    if ps == [] then params else ParamMap(params[ps[0].0 := ps[0].1], ps[1..])
  }

  lemma SolidIsTrimmed(s: string)
    requires Solid(s)
    ensures Strip(s) == s
  {
  }

  lemma PairOfPrinted(p: (string, string))
    requires GoodParam(p)
    ensures Solid(PrintParam(p)) && Without(PrintParam(p), '&') && Pair(Strip(PrintParam(p))) == p
  {
    SolidIsTrimmed(PrintParam(p));
    SolidIsTrimmed(p.0);
    FindSplit(p.0, '=', p.1);
  }

  lemma PiecesOfPrinted(ps: seq<(string, string)>)
    requires ps != [] && Without(PrintParam(ps[0]), '&')
    ensures Pieces(PrintParams(ps))
         == [PrintParam(ps[0])] + if |ps| == 1 then [] else Pieces(PrintParams(ps[1..]))
  {
    if |ps| == 1 {
      FindNone(PrintParam(ps[0]), '&');
    } else {
      FindSplit(PrintParam(ps[0]), '&', PrintParams(ps[1..]));
    }
  }

  lemma {:induction false} PrintedIsSolid(ps: seq<(string, string)>)
    requires ps != [] && forall k | 0 <= k < |ps| :: GoodParam(ps[k])
    ensures Solid(PrintParams(ps))
  {
    PairOfPrinted(ps[0]);
    if |ps| > 1 { PrintedIsSolid(ps[1..]); }
  }

  lemma {:induction false} BindPrinted(params: Params, ps: seq<(string, string)>)
    requires ps != [] && forall k | 0 <= k < |ps| :: GoodParam(ps[k])
    ensures Bind(params, Pieces(PrintParams(ps))) == ParamMap(params, ps)
    decreases |ps|
  {
    PairOfPrinted(ps[0]);
    PiecesOfPrinted(ps);
    var params' := params[ps[0].0 := ps[0].1];
    if |ps| == 1 {
      BindFirst(params, PrintParam(ps[0]), []);
      assert ps[1..] == [];
    } else {
      BindFirst(params, PrintParam(ps[0]), Pieces(PrintParams(ps[1..])));
      BindPrinted(params', ps[1..]);
    }
  }

  /** A printed target is read back: the path, and every key with its last value. */
  lemma QueryRoundTrip(path: string, ps: seq<(string, string)>)
    requires Without(path, '?') && ps != [] && forall k | 0 <= k < |ps| :: GoodParam(ps[k])
    ensures ParseQuery(path + "?" + PrintParams(ps)) == Query(path, ParamMap(map[], ps))
  {
    var params := PrintParams(ps);
    FindSplit(path, '?', params);
    BindPrinted(map[], ps);
    PrintedIsSolid(ps);
    SolidIsTrimmed(params);
  }
}
