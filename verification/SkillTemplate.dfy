/**
The request of a skill: which endpoint is called, how the parameters fill the placeholders of its path, and which
parameters are left to be sent. The parameters are a map, visited in any order.
*/
module SkillTemplate {
  import opened Common
  import Text

  /** A JSON parameter: a string, or anything else with the text it is printed as. */
  datatype Value = Str(s: string) | Printed(s: string)

  type Params = map<string, Value>

  datatype Action = Action(endpoint: string, httpMethod: string)
  datatype Skill = Skill(endpoint: string, httpMethod: string, actions: map<string, Action>)
  datatype Request = Request(endpoint: string, httpMethod: string, params: Params)

  function Placeholder(name: string): string {
    "{" + name + "}"
  }

  /** An action's own endpoint, unless it is empty; then the skill's. */
  function Selected(skill: Skill, action: string): Action {
    if action != "" && action in skill.actions && skill.actions[action].endpoint != "" then skill.actions[action]
    else Action(skill.endpoint, skill.httpMethod)
  }

  function EnterpriseOf(configured: string, params: Params): string {
    if "enterprise_id" in params && params["enterprise_id"].Str? && params["enterprise_id"].s != ""
    then params["enterprise_id"].s else configured
  }

  function WithEnterprise(endpoint: string, enterprise: string): string {
    if enterprise != "" then Text.ReplaceAll(endpoint, Placeholder("enterprise_id"), enterprise) else endpoint
  }

  /** One turn of the loop over the parameters. */
  function FillOne(filled: (string, Params), k: string, v: Value): (string, Params) {
    if Text.Contains(filled.0, Placeholder(k))
    then (Text.ReplaceAll(filled.0, Placeholder(k), v.s), filled.1 - {k})
    else filled
  }

  /** The loop, with the keys visited in the given order. */
  function FillInOrder(endpoint: string, params: Params, order: seq<string>): (string, Params)
    requires forall i :: 0 <= i < |order| ==> order[i] in params
  {
    if order == [] then (endpoint, params)
    else
      var k := order[|order| - 1];
      assert forall i :: 0 <= i < |order| - 1 ==> order[..|order| - 1][i] == order[i];
      FillOne(FillInOrder(endpoint, params, order[..|order| - 1]), k, params[k])
  }

  ghost predicate Visits(order: seq<string>, keys: set<string>) {
    && (forall i :: 0 <= i < |order| ==> order[i] in keys)
    && (forall i, j :: 0 <= i < j < |order| ==> order[i] != order[j])
    && (forall k :: k in keys ==> k in order)
  }

  // ---------------------------------------------------------------------------------------------
  // Templates as literal text and holes

  datatype Seg = Lit(text: string) | Hole(name: string)

  predicate BraceFree(s: string) {
    '{' !in s && '}' !in s
  }

  function SegText(seg: Seg): string {
    match seg
    case Lit(text) => text
    case Hole(name) => Placeholder(name)
  }

  function Flatten(segs: seq<Seg>): string {
    if segs == [] then "" else SegText(segs[0]) + Flatten(segs[1..])
  }

  predicate CleanSeg(seg: Seg) {
    match seg
    case Lit(text) => '{' !in text
    case Hole(name) => BraceFree(name)
  }

  predicate Clean(segs: seq<Seg>) {
    forall i :: 0 <= i < |segs| ==> CleanSeg(segs[i])
  }

  /** Every opening brace is closed before the next one opens; other closing braces are plain text. */
  predicate Closed(s: string, open: bool) {
    if s == "" then !open
    else if s[0] == '{' then !open && Closed(s[1..], true)
    else if s[0] == '}' then Closed(s[1..], false)
    else Closed(s[1..], open)
  }

  /** The segments of such a text; inside a hole, `name` holds the part read so far. */
  function Parse(s: string, name: Option<string>): (segs: seq<Seg>)
    requires Closed(s, name.Some?)
    decreases |s|
  {
    if s == "" then []
    else if s[0] == '{' then Parse(s[1..], Some(""))
    else if s[0] == '}' && name.Some? then [Hole(name.value)] + Parse(s[1..], None)
    else if name.Some? then Parse(s[1..], Some(name.value + [s[0]]))
    else [Lit([s[0]])] + Parse(s[1..], None)
  }

  lemma {:induction false} ParseIsFaithful(s: string, name: Option<string>)
    requires Closed(s, name.Some?) && (name.Some? ==> BraceFree(name.value))
    ensures Clean(Parse(s, name))
    ensures Flatten(Parse(s, name)) == (if name.Some? then "{" + name.value else "") + s
    decreases |s|
  {
    hide Flatten, Clean, SegText;
    if s == "" {
      NothingToFlatten();
    } else {
      var c, rest := s[0], s[1..];
      assert s == [c] + rest;
      if c == '{' {
        ParseIsFaithful(rest, Some(""));
        assert "{" + "" + rest == s;
      } else if c == '}' && name.Some? {
        ParseIsFaithful(rest, None);
        FlattenMore(Hole(name.value), Parse(rest, None));
        assert "{" + name.value + s == ("{" + name.value + "}") + rest;
      } else if name.Some? {
        ParseIsFaithful(rest, Some(name.value + [c]));
        assert "{" + (name.value + [c]) + rest == "{" + name.value + s;
      } else {
        ParseIsFaithful(rest, None);
        FlattenMore(Lit([c]), Parse(rest, None));
      }
    }
  }

  lemma NothingToFlatten()
    ensures Flatten([]) == "" && Clean([])
  {}

  lemma FlattenMore(seg: Seg, segs: seq<Seg>)
    requires Clean(segs)
    ensures Flatten([seg] + segs) == (match seg { case Lit(text) => text case Hole(name) => "{" + name + "}" }) + Flatten(segs)
    ensures CleanSeg(seg) ==> Clean([seg] + segs)
  {
    assert ([seg] + segs)[1..] == segs;
  }

  lemma {:induction false} FlattenConcat(a: seq<Seg>, b: seq<Seg>)
    ensures Flatten(a + b) == Flatten(a) + Flatten(b)
  {
    if a == [] {
      assert a + b == b;
    } else {
      assert (a + b)[1..] == a[1..] + b;
      FlattenConcat(a[1..], b);
    }
  }

  lemma {:induction false} ClosedAfter(s: string, rest: string, open: bool)
    requires Closed(s, open) && Closed(rest, false)
    ensures Closed(s + rest, open)
    decreases |s|
  {
    if s == "" {
      assert s + rest == rest;
    } else {
      assert (s + rest)[1..] == s[1..] + rest;
      ClosedAfter(s[1..], rest, if s[0] == '{' then true else if s[0] == '}' then false else open);
    }
  }

  lemma {:induction false} PlainIsClosed(s: string)
    requires '{' !in s
    ensures Closed(s, false)
  {
    if s != "" { PlainIsClosed(s[1..]); }
  }

  lemma {:induction false} NameIsClosed(name: string)
    requires BraceFree(name)
    ensures Closed(name + "}", true)
  {
    var s := name + "}";
    if name == "" {
      assert s[1..] == "";
    } else {
      assert s[1..] == name[1..] + "}";
      NameIsClosed(name[1..]);
    }
  }

  /** The text of clean segments has closed braces again. */
  lemma {:induction false} FlattenIsClosed(segs: seq<Seg>)
    requires Clean(segs)
    ensures Closed(Flatten(segs), false)
  {
    hide BraceFree;
    if segs != [] {
      assert Clean(segs[1..]) && CleanSeg(segs[0]);
      FlattenIsClosed(segs[1..]);
      match segs[0]
      case Lit(text) =>
        PlainIsClosed(text);
        ClosedAfter(text, Flatten(segs[1..]), false);
      case Hole(name) =>
        var s := "{" + name + "}";
        NameIsClosed(name);
        assert s[1..] == name + "}";
        ClosedAfter(s, Flatten(segs[1..]), false);
    }
  }

  predicate HasHole(segs: seq<Seg>, k: string) {
    Hole(k) in segs
  }

  lemma HoleStart(name: string, k: string, rest: string)
    requires BraceFree(name) && BraceFree(k)
    ensures Text.StartsWith(Placeholder(name) + rest, Placeholder(k)) <==> name == k
  {
    if name == k {
      assert (Placeholder(k) + rest)[..|Placeholder(k)|] == Placeholder(k);
    } else {
      OtherHole(name, k, rest);
    }
  }

  /** Two different names differ before the earlier of their closing braces, or at it. */
  lemma OtherHole(name: string, k: string, rest: string)
    requires BraceFree(name) && BraceFree(k) && name != k
    ensures !Text.StartsWith(Placeholder(name) + rest, Placeholder(k))
  {
    var s, p := Placeholder(name) + rest, Placeholder(k);
    assert forall i :: 0 <= i < |name| ==> s[i + 1] == name[i];
    assert forall i :: 0 <= i < |k| ==> p[i + 1] == k[i];
    assert s[|name| + 1] == '}' && p[|k| + 1] == '}';
    if |p| <= |s| {
      var start := s[..|p|];
      assert |k| < |name| ==> start[|k| + 1] == name[|k|];
      assert |name| < |k| ==> start[|name| + 1] == '}' && p[|name| + 1] == k[|name|];
      assert forall i :: 0 <= i < |name| && i < |k| ==> start[i + 1] == name[i];
    }
  }

  /** A placeholder at the front of a text is replaced exactly when it is the one looked for. */
  lemma ReplaceAtHole(name: string, rest: string, k: string, v: string)
    requires BraceFree(name) && BraceFree(k)
    ensures Text.ReplaceAll(Placeholder(name) + rest, Placeholder(k), v)
         == (if name == k then v else Placeholder(name)) + Text.ReplaceAll(rest, Placeholder(k), v)
  {
    var s := Placeholder(name) + rest;
    HoleStart(name, k, rest);
    if name == k {
      assert s[|Placeholder(k)|..] == rest;
    } else {
      assert s[1..] == (name + "}") + rest;
      Text.ReplaceSkips(name + "}", rest, Placeholder(k), v);
      assert Text.ReplaceAll(s, Placeholder(k), v) == ['{'] + Text.ReplaceAll(s[1..], Placeholder(k), v);
    }
  }

  lemma ReplaceInEmpty(k: string, v: string)
    ensures Placeholder(k) != "" && Placeholder(k)[0] == '{'
    ensures Text.ReplaceAll("", Placeholder(k), v) == ""
  {
  }

  // ---------------------------------------------------------------------------------------------
  // Filling one hole

  /** Every hole of this name becomes the given segments. */
  function Subst(segs: seq<Seg>, k: string, put: seq<Seg>): seq<Seg> {
    if segs == [] then [] else (if segs[0] == Hole(k) then put else [segs[0]]) + Subst(segs[1..], k, put)
  }

  /** Replacing a placeholder in the text fills the holes of that name, and nothing else. */
  lemma {:induction false} ReplaceFillsHoles(segs: seq<Seg>, k: string, put: seq<Seg>)
    requires Clean(segs) && BraceFree(k)
    ensures Text.ReplaceAll(Flatten(segs), Placeholder(k), Flatten(put)) == Flatten(Subst(segs, k, put))
  {
    hide Text.ReplaceAll, BraceFree;
    ReplaceInEmpty(k, Flatten(put));
    if segs != [] {
      var rest := Flatten(segs[1..]);
      assert CleanSeg(segs[0]) && Clean(segs[1..]);
      ReplaceFillsHoles(segs[1..], k, put);
      FlattenConcat(if segs[0] == Hole(k) then put else [segs[0]], Subst(segs[1..], k, put));
      OneSegText(segs[0]);
      match segs[0]
      case Lit(text) => Text.ReplaceSkips(text, rest, Placeholder(k), Flatten(put));
      case Hole(name) => ReplaceAtHole(name, rest, k, Flatten(put));
    }
  }

  lemma OneSegText(seg: Seg)
    ensures Flatten([seg]) == SegText(seg)
  {
    assert [seg][1..] == [];
  }

  lemma ContainsAtHole(name: string, rest: string, k: string)
    requires BraceFree(name) && BraceFree(k)
    ensures Text.Contains(Placeholder(name) + rest, Placeholder(k)) <==> name == k || Text.Contains(rest, Placeholder(k))
  {
    var s := Placeholder(name) + rest;
    HoleStart(name, k, rest);
    assert s[1..] == (name + "}") + rest;
    Text.ContainsSkips(name + "}", rest, Placeholder(k));
  }

  lemma NoHoleInEmpty(k: string)
    ensures !Text.Contains("", Placeholder(k))
  {
  }

  lemma {:induction false} ContainsIffHole(segs: seq<Seg>, k: string)
    requires Clean(segs) && BraceFree(k)
    ensures Text.Contains(Flatten(segs), Placeholder(k)) <==> HasHole(segs, k)
  {
    hide Text.Contains, Placeholder;
    ReplaceInEmpty(k, "");
    NoHoleInEmpty(k);
    if segs != [] {
      var rest := Flatten(segs[1..]);
      assert Clean(segs[1..]);
      ContainsIffHole(segs[1..], k);
      assert segs == [segs[0]] + segs[1..];
      match segs[0]
      case Lit(text) => Text.ContainsSkips(text, rest, Placeholder(k));
      case Hole(name) =>
        ContainsAtHole(name, rest, k);
    }
  }

  lemma {:induction false} SubstHoles(segs: seq<Seg>, k: string, put: seq<Seg>, j: string)
    requires Clean(segs) && Clean(put)
    ensures Clean(Subst(segs, k, put))
    ensures HasHole(Subst(segs, k, put), j) <==> (HasHole(segs, j) && j != k) || (HasHole(segs, k) && HasHole(put, j))
  {
    hide CleanSeg;
    if segs != [] {
      SubstHoles(segs[1..], k, put, j);
      assert segs == [segs[0]] + segs[1..];
    }
  }

  // ---------------------------------------------------------------------------------------------
  // The loop on segments

  ghost predicate ClosedParams(params: Params) {
    forall k :: k in params ==> BraceFree(k) && Closed(params[k].s, false)
  }

  ghost function ValueSegs(params: Params, k: string): seq<Seg>
    requires ClosedParams(params) && k in params
  {
    Parse(params[k].s, None)
  }

  lemma ValueIs(params: Params, k: string)
    requires ClosedParams(params) && k in params
    ensures Clean(ValueSegs(params, k)) && Flatten(ValueSegs(params, k)) == params[k].s && BraceFree(k)
  {
    ParseIsFaithful(params[k].s, None);
  }

  ghost function FillSegs(segs: seq<Seg>, params: Params, order: seq<string>): seq<Seg>
    requires ClosedParams(params) && forall i :: 0 <= i < |order| ==> order[i] in params
  {
    if order == [] then segs
    else
      var n := |order| - 1;
      assert forall i :: 0 <= i < n ==> order[..n][i] == order[i];
      Subst(FillSegs(segs, params, order[..n]), order[n], ValueSegs(params, order[n]))
  }

  /** The parameters that met no hole in their turn. */
  ghost function LeftOver(segs: seq<Seg>, params: Params, order: seq<string>): Params
    requires ClosedParams(params) && forall i :: 0 <= i < |order| ==> order[i] in params
  {
    if order == [] then params
    else
      var n := |order| - 1;
      assert forall i :: 0 <= i < n ==> order[..n][i] == order[i];
      if HasHole(FillSegs(segs, params, order[..n]), order[n]) then LeftOver(segs, params, order[..n]) - {order[n]}
      else LeftOver(segs, params, order[..n])
  }

  lemma FillOneIs(segs: seq<Seg>, left: Params, params: Params, k: string)
    requires Clean(segs) && ClosedParams(params) && k in params
    ensures Clean(Subst(segs, k, ValueSegs(params, k)))
    ensures FillOne((Flatten(segs), left), k, params[k])
         == (Flatten(Subst(segs, k, ValueSegs(params, k))), if HasHole(segs, k) then left - {k} else left)
  {
    hide Flatten, Subst, Clean, HasHole, Placeholder, Text.Contains, Text.ReplaceAll, BraceFree;
    ValueIs(params, k);
    SubstHoles(segs, k, ValueSegs(params, k), k);
    ContainsIffHole(segs, k);
    ReplaceFillsHoles(segs, k, ValueSegs(params, k));
    if !HasHole(segs, k) { SubstNothing(segs, k, ValueSegs(params, k)); }
  }

  /** What the loop leaves is the text of the filled segments, and the parameters that met no hole. */
  lemma {:induction false} FillInOrderIs(segs: seq<Seg>, params: Params, order: seq<string>)
    requires Clean(segs) && ClosedParams(params) && forall i :: 0 <= i < |order| ==> order[i] in params
    ensures Clean(FillSegs(segs, params, order))
    ensures FillInOrder(Flatten(segs), params, order) == (Flatten(FillSegs(segs, params, order)), LeftOver(segs, params, order))
    decreases |order|
  {
    hide Flatten, Subst, Clean, HasHole, FillOne, ClosedParams, ValueSegs;
    if order != [] {
      var n := |order| - 1;
      var front := order[..n];
      assert forall i :: 0 <= i < n ==> front[i] == order[i];
      FillInOrderIs(segs, params, front);
      FillOneIs(FillSegs(segs, params, front), LeftOver(segs, params, front), params, order[n]);
    }
  }

  lemma {:induction false} SubstNothing(segs: seq<Seg>, k: string, put: seq<Seg>)
    requires !HasHole(segs, k)
    ensures Subst(segs, k, put) == segs
  {
    if segs != [] {
      assert segs == [segs[0]] + segs[1..];
      SubstNothing(segs[1..], k, put);
    }
  }

  // ---------------------------------------------------------------------------------------------
  // When the order is irrelevant

  /** No parameter with a hole has a value that writes another parameter's placeholder. */
  ghost predicate Disentangled(template: string, params: Params) {
    forall a, b :: a in params && b in params && a != b && Text.Contains(template, Placeholder(a)) ==>
      !Text.Contains(params[a].s, Placeholder(b))
  }

  ghost predicate SegsDisentangled(segs: seq<Seg>, params: Params)
    requires ClosedParams(params)
  {
    forall a, b :: a in params && b in params && a != b && HasHole(segs, a) ==> !HasHole(ValueSegs(params, a), b)
  }

  lemma DisentangledIs(segs: seq<Seg>, params: Params)
    requires Clean(segs) && ClosedParams(params)
    ensures Disentangled(Flatten(segs), params) <==> SegsDisentangled(segs, params)
  {
    hide Text.Contains, HasHole, Flatten, Clean, Placeholder, BraceFree, Closed, Parse;
    forall a | a in params ensures Text.Contains(Flatten(segs), Placeholder(a)) <==> HasHole(segs, a) {
      ValueIs(params, a);
      ContainsIffHole(segs, a);
    }
    forall a, b | a in params && b in params
      ensures Text.Contains(params[a].s, Placeholder(b)) <==> HasHole(ValueSegs(params, a), b)
    {
      ValueIs(params, a);
      ValueIs(params, b);
      ContainsIffHole(ValueSegs(params, a), b);
    }
  }

  /** The template with the holes of the visited keys filled, all at once. */
  ghost function FillAll(segs: seq<Seg>, params: Params, visited: set<string>): seq<Seg>
    requires ClosedParams(params)
  {
    if segs == [] then []
    else
      (if segs[0].Hole? && segs[0].name in visited && segs[0].name in params then ValueSegs(params, segs[0].name) else [segs[0]])
      + FillAll(segs[1..], params, visited)
  }

  lemma {:induction false} SubstConcat(a: seq<Seg>, b: seq<Seg>, k: string, put: seq<Seg>)
    ensures Subst(a + b, k, put) == Subst(a, k, put) + Subst(b, k, put)
  {
    if a == [] {
      assert a + b == b;
    } else {
      assert (a + b)[1..] == a[1..] + b;
      SubstConcat(a[1..], b, k, put);
    }
  }

  lemma {:induction false} FillOneMore(segs: seq<Seg>, params: Params, visited: set<string>, k: string)
    requires ClosedParams(params) && SegsDisentangled(segs, params) && k in params && k !in visited
    ensures Subst(FillAll(segs, params, visited), k, ValueSegs(params, k)) == FillAll(segs, params, visited + {k})
    ensures HasHole(FillAll(segs, params, visited), k) <==> HasHole(segs, k)
  {
    hide ClosedParams, ValueSegs;
    if segs != [] {
      assert segs == [segs[0]] + segs[1..];
      assert SegsDisentangled(segs[1..], params) by {
        assert forall a :: HasHole(segs[1..], a) ==> HasHole(segs, a);
      }
      FillOneMore(segs[1..], params, visited, k);
      var first := if segs[0].Hole? && segs[0].name in visited && segs[0].name in params then ValueSegs(params, segs[0].name) else [segs[0]];
      var v := ValueSegs(params, k);
      SubstConcat(first, FillAll(segs[1..], params, visited), k, v);
      if first != [segs[0]] {
        assert HasHole(segs, segs[0].name);
        SubstNothing(first, k, v);
      } else {
        assert [segs[0]][1..] == [];
      }
    }
  }

  lemma {:induction false} NothingVisited(segs: seq<Seg>, params: Params)
    requires ClosedParams(params)
    ensures FillAll(segs, params, {}) == segs
  {
    if segs != [] { NothingVisited(segs[1..], params); }
  }

  /** The parameters that no hole among the visited keys has used up. */
  function Unused(segs: seq<Seg>, params: Params, visited: set<string>): Params {
    map k | k in params && !(k in visited && HasHole(segs, k)) :: params[k]
  }

  lemma {:induction false} DisentangledFill(segs: seq<Seg>, params: Params, order: seq<string>)
    requires ClosedParams(params) && SegsDisentangled(segs, params)
    requires forall i :: 0 <= i < |order| ==> order[i] in params
    requires forall i, j :: 0 <= i < j < |order| ==> order[i] != order[j]
    ensures var visited := set i | 0 <= i < |order| :: order[i];
            FillSegs(segs, params, order) == FillAll(segs, params, visited)
            && LeftOver(segs, params, order) == Unused(segs, params, visited)
    decreases |order|
  {
    hide FillAll, Subst, ClosedParams, SegsDisentangled, ValueSegs, HasHole;
    var visited := set i | 0 <= i < |order| :: order[i];
    if order == [] {
      NothingVisited(segs, params);
      assert visited == {} && Unused(segs, params, {}) == params;
    } else {
      var n := |order| - 1;
      var front, k := order[..n], order[n];
      assert forall i :: 0 <= i < n ==> front[i] == order[i];
      var before := set i | 0 <= i < n :: front[i];
      DisentangledFill(segs, params, front);
      VisitedOneMore(order);
      FillOneMore(segs, params, before, k);
      if HasHole(segs, k) {
        assert Unused(segs, params, before) - {k} == Unused(segs, params, visited);
      } else {
        assert Unused(segs, params, before) == Unused(segs, params, visited);
      }
    }
  }

  lemma VisitedOneMore(order: seq<string>)
    requires order != [] && forall i, j :: 0 <= i < j < |order| ==> order[i] != order[j]
    ensures var n := |order| - 1;
            var before := set i | 0 <= i < n :: order[..n][i];
            (set i | 0 <= i < |order| :: order[i]) == before + {order[n]} && order[n] !in before
  {
    var n := |order| - 1;
    var front := order[..n];
    var before := set i | 0 <= i < n :: front[i];
    forall x | x in before ensures exists i :: 0 <= i < |order| && order[i] == x {
      var i :| 0 <= i < n && front[i] == x;
      assert order[i] == x;
    }
    var visited := set i | 0 <= i < |order| :: order[i];
    assert order[n] in visited;
    forall i | 0 <= i < n ensures order[i] in before { assert front[i] == order[i]; }
  }

  /** For a template and values with closed braces that are disentangled, every order of visiting the parameters ends
      with the same path and the same remaining parameters: each placeholder named by a parameter holds its value, all
      other text is untouched, and a parameter remains exactly when the template has no placeholder for it. */
  lemma OrderIsIrrelevant(template: string, params: Params, order: seq<string>)
    requires Closed(template, false) && ClosedParams(params) && Visits(order, params.Keys) && Disentangled(template, params)
    ensures var segs := Parse(template, None);
            && Flatten(segs) == template && Clean(segs)
            && FillInOrder(template, params, order) == (Flatten(FillAll(segs, params, params.Keys)), Unused(segs, params, params.Keys))
  {
    var segs := Parse(template, None);
    ParseIsFaithful(template, None);
    hide Parse, Closed, ClosedParams, Flatten, Clean, FillAll, Disentangled, FillInOrder, FillSegs, LeftOver;
    assert "" + template == template;
    DisentangledIs(segs, params);
    FillInOrderIs(segs, params, order);
    DisentangledFill(segs, params, order);
    assert (set i | 0 <= i < |order| :: order[i]) == params.Keys;
  }

  // ---------------------------------------------------------------------------------------------
  // When the order matters

  lemma {:induction false} Enumerate(keys: set<string>) returns (order: seq<string>)
    ensures Visits(order, keys)
    decreases |keys|
  {
    if keys == {} {
      order := [];
    } else {
      var k :| k in keys;
      var rest := Enumerate(keys - {k});
      order := [k] + rest;
      forall x | x in keys ensures x in order {}
    }
  }

  lemma BetweenVisits(first: string, rest: seq<string>, last: string, keys: set<string>)
    requires first in keys && last in keys && first != last && Visits(rest, keys - {first, last})
    ensures Visits([first] + rest + [last], keys)
  {
    var order := [first] + rest + [last];
    assert forall i :: 0 <= i < |order| ==> order[i] == if i == 0 then first else if i <= |rest| then rest[i - 1] else last;
    forall k | k in keys ensures k in order {
      if k == first { assert order[0] == k; }
      else if k == last { assert order[|order| - 1] == k; }
      else {
        assert k in keys - {first, last};
        var i :| 0 <= i < |rest| && rest[i] == k;
        assert order[i + 1] == k;
      }
    }
  }

  /** A hole and an unused parameter last until their key is visited. */
  lemma {:induction false} LastsUntilVisited(segs: seq<Seg>, params: Params, first: seq<string>, more: seq<string>, k: string)
    requires Clean(segs) && ClosedParams(params) && k !in more
    requires forall i :: 0 <= i < |first + more| ==> (first + more)[i] in params
    requires forall i :: 0 <= i < |first| ==> first[i] in params
    ensures HasHole(FillSegs(segs, params, first), k) ==> HasHole(FillSegs(segs, params, first + more), k)
    ensures k in LeftOver(segs, params, first) ==> k in LeftOver(segs, params, first + more)
    decreases |more|
  {
    hide Flatten, Subst, Clean, HasHole, ClosedParams, ValueSegs;
    if more == [] {
      assert first + more == first;
    } else {
      var n := |more| - 1;
      var order := first + more;
      assert order[..|order| - 1] == first + more[..n] && order[|order| - 1] == more[n];
      assert forall i :: 0 <= i < |first + more[..n]| ==> (first + more[..n])[i] == order[i];
      LastsUntilVisited(segs, params, first, more[..n], k);
      FillInOrderIs(segs, params, first + more[..n]);
      ValueIs(params, more[n]);
      SubstHoles(FillSegs(segs, params, first + more[..n]), more[n], ValueSegs(params, more[n]), k);
    }
  }

  /** What one more visit does to the holes and to the unused parameters. */
  lemma VisitLast(segs: seq<Seg>, params: Params, front: seq<string>, k: string, j: string)
    requires Clean(segs) && ClosedParams(params) && k in params && forall i :: 0 <= i < |front| ==> front[i] in params
    ensures forall i :: 0 <= i < |front + [k]| ==> (front + [k])[i] in params
    ensures HasHole(FillSegs(segs, params, front + [k]), j)
       <==> (HasHole(FillSegs(segs, params, front), j) && j != k)
            || (HasHole(FillSegs(segs, params, front), k) && HasHole(ValueSegs(params, k), j))
    ensures LeftOver(segs, params, front + [k])
         == if HasHole(FillSegs(segs, params, front), k) then LeftOver(segs, params, front) - {k} else LeftOver(segs, params, front)
  {
    hide Flatten, Subst, Clean, HasHole, ClosedParams, ValueSegs;
    assert (front + [k])[..|front|] == front;
    FillInOrderIs(segs, params, front);
    ValueIs(params, k);
    SubstHoles(FillSegs(segs, params, front), k, ValueSegs(params, k), j);
  }

  /** a is first and b last: b is used up, and what holes of b are left its own value has written. */
  lemma WriterFirst(segs: seq<Seg>, params: Params, a: string, rest: seq<string>, b: string)
    requires Clean(segs) && ClosedParams(params) && a in params && b in params && a != b && b !in rest
    requires forall i :: 0 <= i < |rest| ==> rest[i] in params
    requires HasHole(segs, a) && HasHole(ValueSegs(params, a), b)
    ensures forall i :: 0 <= i < |[a] + rest + [b]| ==> ([a] + rest + [b])[i] in params
    ensures b !in LeftOver(segs, params, [a] + rest + [b])
    ensures HasHole(FillSegs(segs, params, [a] + rest + [b]), b) ==> HasHole(ValueSegs(params, b), b)
  {
    hide Flatten, Subst, Clean, HasHole, ClosedParams, ValueSegs, LeftOver;
    VisitLast(segs, params, [], a, b);
    assert [] + [a] == [a];
    NoneVisited(segs, params);
    assert forall i :: 0 <= i < |[a] + rest| ==> ([a] + rest)[i] == if i == 0 then a else rest[i - 1];
    LastsUntilVisited(segs, params, [a], rest, b);
    VisitLast(segs, params, [a] + rest, b, b);
  }

  lemma NoneVisited(segs: seq<Seg>, params: Params)
    requires ClosedParams(params)
    ensures FillSegs(segs, params, []) == segs && LeftOver(segs, params, []) == params
  {}

  /** b is first and a last: a's value leaves a hole of b, and b is unused if the template had none. */
  lemma WriterLast(segs: seq<Seg>, params: Params, a: string, rest: seq<string>, b: string)
    requires Clean(segs) && ClosedParams(params) && a in params && b in params && a != b && a !in rest && b !in rest
    requires forall i :: 0 <= i < |rest| ==> rest[i] in params
    requires HasHole(segs, a) && HasHole(ValueSegs(params, a), b)
    ensures forall i :: 0 <= i < |[b] + rest + [a]| ==> ([b] + rest + [a])[i] in params
    ensures !HasHole(segs, b) ==> b in LeftOver(segs, params, [b] + rest + [a])
    ensures HasHole(FillSegs(segs, params, [b] + rest + [a]), b)
  {
    hide Flatten, Subst, Clean, HasHole, ClosedParams, ValueSegs, LeftOver;
    VisitLast(segs, params, [], b, a);
    assert [] + [b] == [b];
    NoneVisited(segs, params);
    assert forall i :: 0 <= i < |[b] + rest| ==> ([b] + rest)[i] == if i == 0 then b else rest[i - 1];
    LastsUntilVisited(segs, params, [b], rest, a);
    LastsUntilVisited(segs, params, [b], rest, b);
    VisitLast(segs, params, [b] + rest, a, b);
  }

  /** When a parameter with a placeholder has a value that writes the placeholder of another parameter, and that one has
      no placeholder of its own in the template or does not write it itself, two orders give different results. */
  lemma OrderMatters(template: string, params: Params, a: string, b: string) returns (one: seq<string>, other: seq<string>)
    requires Closed(template, false) && ClosedParams(params)
    requires a in params && b in params && a != b
    requires Text.Contains(template, Placeholder(a)) && Text.Contains(params[a].s, Placeholder(b))
    requires !Text.Contains(template, Placeholder(b)) || !Text.Contains(params[b].s, Placeholder(b))
    ensures Visits(one, params.Keys) && Visits(other, params.Keys)
    ensures FillInOrder(template, params, one) != FillInOrder(template, params, other)
  {
    var segs := Parse(template, None);
    ParseIsFaithful(template, None);
    assert "" + template == template;
    hide Flatten, Clean, HasHole, Closed, Parse, Text.Contains, FillInOrder, FillSegs, LeftOver, Placeholder, BraceFree;
    ValueIs(params, a);
    ValueIs(params, b);
    ContainsIffHole(segs, a);
    ContainsIffHole(segs, b);
    ContainsIffHole(ValueSegs(params, a), b);
    ContainsIffHole(ValueSegs(params, b), b);
    var rest := Enumerate(params.Keys - {a, b});
    one, other := [a] + rest + [b], [b] + rest + [a];
    BetweenVisits(a, rest, b, params.Keys);
    assert {b, a} == {a, b};
    BetweenVisits(b, rest, a, params.Keys);
    hide ClosedParams, ValueSegs;
    WriterFirst(segs, params, a, rest, b);
    WriterLast(segs, params, a, rest, b);
    FillInOrderIs(segs, params, one);
    FillInOrderIs(segs, params, other);
    ContainsIffHole(FillSegs(segs, params, one), b);
    ContainsIffHole(FillSegs(segs, params, other), b);
  }

  /** When no parameter with a placeholder writes that placeholder itself, the order of the visits is irrelevant exactly
      when the parameters are disentangled. */
  lemma OrderIsIrrelevantIff(template: string, params: Params)
    requires Closed(template, false) && ClosedParams(params)
    requires forall k :: k in params && Text.Contains(template, Placeholder(k)) ==> !Text.Contains(params[k].s, Placeholder(k))
    ensures (forall one, other :: Visits(one, params.Keys) && Visits(other, params.Keys) ==>
               FillInOrder(template, params, one) == FillInOrder(template, params, other))
       <==> Disentangled(template, params)
  {
    hide Closed, ClosedParams, FillInOrder, Text.Contains, Placeholder;
    if Disentangled(template, params) {
      forall one, other | Visits(one, params.Keys) && Visits(other, params.Keys)
        ensures FillInOrder(template, params, one) == FillInOrder(template, params, other)
      {
        OrderIsIrrelevant(template, params, one);
        OrderIsIrrelevant(template, params, other);
      }
    } else {
      var a, b :| a in params && b in params && a != b && Text.Contains(template, Placeholder(a))
                  && Text.Contains(params[a].s, Placeholder(b));
      var one, other := OrderMatters(template, params, a, b);
    }
  }

  /** An instance: a value that writes the placeholder of a later parameter. */
  lemma OrderMattersWithBraces()
    ensures var params: Params := map["a" := Str("{b}"), "b" := Str("x")];
            && FillInOrder("{a}", params, ["a", "b"]) == ("x", map[])
            && FillInOrder("{a}", params, ["b", "a"]) == ("{b}", map["b" := Str("x")])
  {
    var params: Params := map["a" := Str("{b}"), "b" := Str("x")];
    var a, b, x := Hole("a"), Hole("b"), Lit("x");
    SingleSegs(a, b, x);
    hide FillInOrder, FillOne, Subst, Flatten, Clean, HasHole, BraceFree;
    TwoVisits("{a}", params, "a", "b");
    TwoVisits("{a}", params, "b", "a");
    FillOneHole([a], params, "a", params["a"], [b]);
    FillOneHole([b], params - {"a"}, "b", params["b"], [x]);
    FillOneElse([a], params, "b", params["b"]);
    assert params - {"a"} == map["b" := Str("x")] && params - {"a"} - {"b"} == map[];
  }

  lemma SingleSegs(a: Seg, b: Seg, x: Seg)
    requires a == Hole("a") && b == Hole("b") && x == Lit("x")
    ensures Flatten([a]) == "{a}" && Flatten([b]) == "{b}" && Flatten([x]) == "x"
    ensures Clean([a]) && Clean([b]) && BraceFree("a") && BraceFree("b")
    ensures HasHole([a], "a") && HasHole([b], "b") && !HasHole([a], "b")
    ensures Subst([a], "a", [b]) == [b] && Subst([b], "b", [x]) == [x]
  {
    OneSegText(a);
    OneSegText(b);
    OneSegText(x);
    SubstOne(a, "a", [b]);
    SubstOne(b, "b", [x]);
  }

  lemma FillOneElse(segs: seq<Seg>, left: Params, k: string, v: Value)
    requires Clean(segs) && BraceFree(k) && !HasHole(segs, k)
    ensures FillOne((Flatten(segs), left), k, v) == (Flatten(segs), left)
  {
    ContainsIffHole(segs, k);
  }

  /** Parameters that write their own placeholders can be entangled and agree all the same. */
  lemma SelfWritersCanAgree()
    ensures var params: Params := map["a" := Str("{a}{b}{a}"), "b" := Str("{b}{a}{b}")];
            && !Disentangled("{a}{b}", params)
            && FillInOrder("{a}{b}", params, ["a", "b"]) == FillInOrder("{a}{b}", params, ["b", "a"])
  {
    var a, b := Hole("a"), Hole("b");
    var params: Params := map["a" := Str("{a}{b}{a}"), "b" := Str("{b}{a}{b}")];
    HoleTexts();
    SubstPair();
    PairsAreClean();
    TwoVisits(Flatten([a, b]), params, "a", "b");
    TwoVisits(Flatten([a, b]), params, "b", "a");
    hide Subst, Flatten, FillOne, FillInOrder, Placeholder, Clean, HasHole, BraceFree, Text.Contains;
    ContainsIffHole([a, b], "a");
    ContainsIffHole([a, b, a], "b");
    FillOneHole([a, b], params, "a", params["a"], [a, b, a]);
    FillOneHole([a, b], params, "b", params["b"], [b, a, b]);
    FillOneHole([a, b, a, b], params - {"a"}, "b", params["b"], [b, a, b]);
    FillOneHole([a, b, a, b], params - {"b"}, "a", params["a"], [a, b, a]);
    assert params - {"a"} - {"b"} == params - {"b"} - {"a"};
  }

  lemma TwoVisits(template: string, params: Params, x: string, y: string)
    requires x in params && y in params
    ensures FillInOrder(template, params, [x, y]) == FillOne(FillOne((template, params), x, params[x]), y, params[y])
  {
    hide FillOne;
    assert [x, y][..1] == [x] && [x][..0] == [];
    assert FillInOrder(template, params, [x]) == FillOne((template, params), x, params[x]);
  }

  lemma PairsAreClean()
    ensures var a, b := Hole("a"), Hole("b");
            && Clean([a, b]) && Clean([a, b, a]) && Clean([b, a, b]) && Clean([a, b, a, b]) && BraceFree("a") && BraceFree("b")
            && HasHole([a, b], "a") && HasHole([a, b], "b") && HasHole([a, b, a], "b")
            && HasHole([a, b, a, b], "a") && HasHole([a, b, a, b], "b")
  {}

  lemma FillOneHole(segs: seq<Seg>, left: Params, k: string, v: Value, put: seq<Seg>)
    requires Clean(segs) && BraceFree(k) && HasHole(segs, k) && v.s == Flatten(put)
    ensures FillOne((Flatten(segs), left), k, v) == (Flatten(Subst(segs, k, put)), left - {k})
  {
    hide Flatten, Subst, Clean, HasHole, Placeholder, Text.Contains, Text.ReplaceAll, BraceFree;
    ContainsIffHole(segs, k);
    ReplaceFillsHoles(segs, k, put);
  }

  lemma HoleTexts()
    ensures var a, b := Hole("a"), Hole("b");
            Flatten([a, b]) == "{a}{b}" && Flatten([a, b, a]) == "{a}{b}{a}" && Flatten([b, a, b]) == "{b}{a}{b}"
  {
    var a, b := Hole("a"), Hole("b");
    OneSegText(a);
    OneSegText(b);
    hide Flatten;
    FlattenConcat([a], [b]);
    FlattenConcat([b], [a]);
    FlattenConcat([a], [b] + [a]);
    FlattenConcat([b], [a] + [b]);
    assert [a] + [b] == [a, b] && [a] + ([b] + [a]) == [a, b, a] && [b] + ([a] + [b]) == [b, a, b];
  }

  lemma SubstPair()
    ensures var a, b := Hole("a"), Hole("b");
            && Subst([a, b], "a", [a, b, a]) == [a, b, a, b] && Subst([a, b], "b", [b, a, b]) == [a, b, a, b]
            && Subst([a, b, a, b], "a", [a, b, a]) == Subst([a, b, a, b], "b", [b, a, b])
  {
    var a, b := Hole("a"), Hole("b");
    var u, v := [a, b, a], [b, a, b];
    SubstOne(a, "a", u);
    SubstOne(b, "a", u);
    SubstOne(a, "b", v);
    SubstOne(b, "b", v);
    hide Subst;
    assert [a, b] == [a] + [b] && [a, b, a, b] == [a, b] + [a, b];
    SubstConcat([a], [b], "a", u);
    SubstConcat([a], [b], "b", v);
    SubstConcat([a, b], [a, b], "a", u);
    SubstConcat([a, b], [a, b], "b", v);
  }

  lemma SubstOne(seg: Seg, k: string, put: seq<Seg>)
    ensures Subst([seg], k, put) == if seg == Hole(k) then put else [seg]
  {
    assert [seg][1..] == [];
  }

  // ---------------------------------------------------------------------------------------------
  // The whole request

  function PathTemplate(skill: Skill, action: string, configured: string, params: Params): string {
    WithEnterprise(Selected(skill, action).endpoint, EnterpriseOf(configured, params))
  }

  /** The enterprise parameter is dropped when the skill's own endpoint, not the action's, has its placeholder. */
  function Sent(skill: Skill, left: Params): Params {
    if Text.Contains(skill.endpoint, Placeholder("enterprise_id")) then left - {"enterprise_id"} else left
  }

  /** An action that names an endpoint is called at its own endpoint and with its own method, whatever the skill's are. */
  lemma ActionDecides(skill: Skill, other: Skill, action: string)
    requires action != "" && action in skill.actions && skill.actions[action].endpoint != ""
    requires action in other.actions && other.actions[action] == skill.actions[action]
    ensures Selected(skill, action) == Selected(other, action) == skill.actions[action]
  {}

  /** Without such an action the skill's own endpoint is called, with the skill's method. */
  lemma SkillDecides(skill: Skill, action: string)
    requires action == "" || action !in skill.actions || skill.actions[action].endpoint == ""
    ensures Selected(skill, action).endpoint == skill.endpoint && Selected(skill, action).httpMethod == skill.httpMethod
  {}

  /** An enterprise given as a non-empty text stands in for the configured one; anything else leaves the configured one. */
  lemma GivenEnterpriseWins(skill: Skill, action: string, configured: string, params: Params, other: string)
    ensures var given := "enterprise_id" in params && params["enterprise_id"].Str? && params["enterprise_id"].s != "";
            && (given ==> PathTemplate(skill, action, configured, params) == PathTemplate(skill, action, params["enterprise_id"].s, map[]))
            && (!given ==> PathTemplate(skill, action, configured, params) == PathTemplate(skill, action, configured, map[]))
  {}

  /** With an enterprise known, no placeholder for it is left unless the enterprise writes one; without, the path is the
      endpoint as it is. */
  lemma EnterpriseIsFilled(skill: Skill, action: string, configured: string, params: Params)
    requires Closed(Selected(skill, action).endpoint, false) && Closed(EnterpriseOf(configured, params), false)
    ensures var path, enterprise := PathTemplate(skill, action, configured, params), EnterpriseOf(configured, params);
            && (enterprise == "" ==> path == Selected(skill, action).endpoint)
            && (enterprise != "" && !Text.Contains(enterprise, Placeholder("enterprise_id")) ==>
                  !Text.Contains(path, Placeholder("enterprise_id")))
  {
    var endpoint, enterprise := Selected(skill, action).endpoint, EnterpriseOf(configured, params);
    var segs, put := Parse(endpoint, None), Parse(enterprise, None);
    ParseIsFaithful(endpoint, None);
    ParseIsFaithful(enterprise, None);
    assert "" + endpoint == endpoint && "" + enterprise == enterprise;
    assert BraceFree("enterprise_id");
    hide Parse, Closed, Clean, Flatten, Subst, HasHole, Text.Contains, Text.ReplaceAll, BraceFree, Selected, EnterpriseOf, Placeholder;
    ReplaceFillsHoles(segs, "enterprise_id", put);
    SubstHoles(segs, "enterprise_id", put, "enterprise_id");
    ContainsIffHole(put, "enterprise_id");
    ContainsIffHole(Subst(segs, "enterprise_id", put), "enterprise_id");
  }

  /** The path before the parameters are visited has closed braces again, and holds the placeholders of the endpoint
      (but for the enterprise's) and those that the enterprise writes. */
  lemma PathIsClosed(skill: Skill, action: string, configured: string, params: Params, k: string)
    requires Closed(Selected(skill, action).endpoint, false) && Closed(configured, false) && ClosedParams(params)
    requires k != "enterprise_id" && BraceFree(k)
    ensures Closed(PathTemplate(skill, action, configured, params), false)
    ensures !Text.Contains(EnterpriseOf(configured, params), Placeholder(k)) ==>
              (Text.Contains(PathTemplate(skill, action, configured, params), Placeholder(k))
               <==> Text.Contains(Selected(skill, action).endpoint, Placeholder(k)))
  {
    var endpoint, enterprise := Selected(skill, action).endpoint, EnterpriseOf(configured, params);
    assert BraceFree("enterprise_id") && Closed(enterprise, false);
    var segs, put := Parse(endpoint, None), Parse(enterprise, None);
    ParseIsFaithful(endpoint, None);
    ParseIsFaithful(enterprise, None);
    assert "" + endpoint == endpoint && "" + enterprise == enterprise;
    hide Parse, Closed, Clean, Flatten, Subst, HasHole, Text.Contains, Text.ReplaceAll, BraceFree, Selected, EnterpriseOf, ClosedParams, Placeholder;
    ReplaceFillsHoles(segs, "enterprise_id", put);
    SubstHoles(segs, "enterprise_id", put, k);
    FlattenIsClosed(Subst(segs, "enterprise_id", put));
    ContainsIffHole(segs, k);
    ContainsIffHole(put, k);
    ContainsIffHole(Subst(segs, "enterprise_id", put), k);
  }

  /** So path and remaining parameters of a request do not depend on the order in which the map is visited exactly when
      the parameters are disentangled, unless a value writes its own placeholder. */
  lemma RequestIsDeterminedIff(skill: Skill, action: string, configured: string, params: Params)
    requires Closed(Selected(skill, action).endpoint, false) && Closed(configured, false) && ClosedParams(params)
    requires var path := PathTemplate(skill, action, configured, params);
             forall k :: k in params && Text.Contains(path, Placeholder(k)) ==> !Text.Contains(params[k].s, Placeholder(k))
    ensures var path := PathTemplate(skill, action, configured, params);
            (forall one, other :: Visits(one, params.Keys) && Visits(other, params.Keys) ==>
               FillInOrder(path, params, one) == FillInOrder(path, params, other))
            <==> Disentangled(path, params)
  {
    hide Selected, Closed, PathTemplate, FillInOrder, Text.Contains, Placeholder, Disentangled;
    assert BraceFree("");
    PathIsClosed(skill, action, configured, params, "");
    OrderIsIrrelevantIff(PathTemplate(skill, action, configured, params), params);
  }

  /** Each disentangled parameter other than the enterprise is consumed by the path or sent, never both and never
      neither, and what is sent is unchanged. */
  lemma ConsumedOrSent(skill: Skill, action: string, configured: string, params: Params, order: seq<string>, k: string)
    requires Closed(Selected(skill, action).endpoint, false) && Closed(configured, false) && ClosedParams(params)
    requires Disentangled(PathTemplate(skill, action, configured, params), params)
    requires Visits(order, params.Keys) && k in params && k != "enterprise_id"
    ensures var path := PathTemplate(skill, action, configured, params);
            var sent := Sent(skill, FillInOrder(path, params, order).1);
            && (k in sent <==> !Text.Contains(path, Placeholder(k)))
            && (k in sent ==> sent[k] == params[k])
  {
    var path := PathTemplate(skill, action, configured, params);
    PathIsClosed(skill, action, configured, params, k);
    OrderIsIrrelevant(path, params, order);
    hide Selected, Sent, Closed, Parse, FillInOrder, FillAll, Flatten, HasHole, BraceFree, PathTemplate, Text.Contains, Placeholder;
    var segs := Parse(path, None);
    SentUnlessEnterprise(skill, FillInOrder(path, params, order).1, k);
    ContainsIffHole(segs, k);
  }

  lemma SentUnlessEnterprise(skill: Skill, left: Params, k: string)
    requires k != "enterprise_id"
    ensures k in Sent(skill, left) <==> k in left
    ensures k in left ==> Sent(skill, left)[k] == left[k]
  {}

  /** The loop over the parameters: the map is visited in an arbitrary order. */
  method FillPath(template: string, given: Params) returns (endpoint: string, params: Params)
    ensures exists order :: Visits(order, given.Keys) && (endpoint, params) == FillInOrder(template, given, order)
    ensures forall k :: k in params ==> k in given && params[k] == given[k]
  {
    hide Text.Contains, Text.ReplaceAll;
    endpoint, params := template, given;
    ghost var order: seq<string> := [];
    var todo := given.Keys;
    while todo != {}
      invariant todo <= given.Keys
      invariant forall i :: 0 <= i < |order| ==> order[i] in given && order[i] !in todo
      invariant forall i, j :: 0 <= i < j < |order| ==> order[i] != order[j]
      invariant forall k :: k in given && k !in todo ==> k in order
      invariant (endpoint, params) == FillInOrder(template, given, order)
      invariant forall k :: k in params ==> k in given && params[k] == given[k]
      decreases todo
    {
      var k :| k in todo;
      var placeholder := "{" + k + "}";
      if Text.Contains(endpoint, placeholder) {
        endpoint := Text.ReplaceAll(endpoint, placeholder, given[k].s);
        params := params - {k};
      }
      todo := todo - {k};
      assert (order + [k])[..|order|] == order;
      order := order + [k];
    }
    assert Visits(order, given.Keys);
  }

  /** The endpoint, method and parameters that executeSkill sends. The map is visited in an arbitrary order. */
  method BuildRequest(skill: Skill, action: string, configured: string, given: Params) returns (request: Request)
    ensures exists order :: Visits(order, given.Keys)
              && var (endpoint, left) := FillInOrder(PathTemplate(skill, action, configured, given), given, order);
                 request.endpoint == endpoint && request.params == Sent(skill, left)
    ensures request.httpMethod == if Selected(skill, action).httpMethod == "" then "POST" else Selected(skill, action).httpMethod
    ensures Text.Contains(skill.endpoint, "{enterprise_id}") ==> "enterprise_id" !in request.params
    ensures forall k :: k in request.params ==> k in given && request.params[k] == given[k]
  {
    assert Placeholder("enterprise_id") == "{enterprise_id}";
    var params := given;
    var enterpriseId := configured;
    if "enterprise_id" in params && params["enterprise_id"].Str? && params["enterprise_id"].s != "" {
      enterpriseId := params["enterprise_id"].s;
    }
    var endpoint, httpMethod := "", "";
    if action != "" && action in skill.actions {
      endpoint, httpMethod := skill.actions[action].endpoint, skill.actions[action].httpMethod;
    }
    if endpoint == "" {
      endpoint, httpMethod := skill.endpoint, skill.httpMethod;
    }
    if enterpriseId != "" {
      endpoint := Text.ReplaceAll(endpoint, "{enterprise_id}", enterpriseId);
    }
    endpoint, params := FillPath(endpoint, given);
    if httpMethod == "" { httpMethod := "POST"; }
    if Text.Contains(skill.endpoint, "{enterprise_id}") { params := params - {"enterprise_id"}; }
    request := Request(endpoint, httpMethod, params);
  }
}
