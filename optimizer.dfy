/**
 * set_optimizer: split the model's parameters into groups and configure SGD.
 *
 * A parameter is modelled by its name and its tensor rank (`param.dim()`).
 * When the model has a `get_params` accessor, its four lists become four groups;
 * otherwise the named parameters are routed by rank into a decay and a no-decay group.
 */
module Optimizer {
  import opened Options

  /** A trainable parameter as `named_parameters` yields it. */
  datatype Param = Param(name: string, rank: nat)

  /** The four lists returned by `model.get_params()`, in order. */
  datatype ParamLists = ParamLists(wd: seq<Param>, nowd: seq<Param>, lrMulWd: seq<Param>, lrMulNowd: seq<Param>)

  /** The model as set_optimizer sees it: its parameters in enumeration order, and what
      `get_params` returns when the model has that accessor. */
  datatype Model = Model(named: seq<Param>, getParams: Option<ParamLists>)

  /** One dict of `params_list`: its parameters and the keys that override the optimizer defaults. */
  datatype Group = Group(params: seq<Param>, lr: Option<real>, momentum: Option<real>, weightDecay: Option<real>)

  /** `torch.optim.SGD(params_list, lr=..., momentum=..., weight_decay=...)`. */
  datatype Sgd = Sgd(groups: seq<Group>, lr: real, momentum: real, weightDecay: real)

  /** A group after the optimizer has filled in every key the group does not set. */
  datatype Resolved = Resolved(params: seq<Param>, lr: real, momentum: real, weightDecay: real)

  const LrStart: real := 0.01
  const BaseWeightDecay: real := 0.0005
  const BaseMomentum: real := 0.9
  /** `wd_val`, the weight decay forced on the no-decay groups. */
  const NoWeightDecay: real := 0.0

  /** Where the rank-based fallback sends a parameter. */
  datatype Route = Decay | NoDecay | Dropped

  function RouteOf(p: Param): Route {
    if p.rank == 1 then NoDecay
    else if p.rank == 2 || p.rank == 4 then Decay
    else Dropped
  }

  /** The parameters of `s` routed to `r`, in the order `s` lists them. */
  function Routed(s: seq<Param>, r: Route): seq<Param> {
    if s == [] then []
    else Routed(s[..|s| - 1], r) + (if RouteOf(s[|s| - 1]) == r then [s[|s| - 1]] else [])
  }

  /** The positions in `s` of the parameters routed to `r`. */
  function Positions(s: seq<Param>, r: Route): seq<nat> {
    if s == [] then []
    else Positions(s[..|s| - 1], r) + (if RouteOf(s[|s| - 1]) == r then [|s| - 1] else [])
  }

  /** The fallback loop: build `wd_params` and `non_wd_params` by appending. */
  method PartitionByRank(named: seq<Param>) returns (wd: seq<Param>, nonWd: seq<Param>)
    ensures wd == Routed(named, Decay)
    ensures nonWd == Routed(named, NoDecay)
  {
    wd, nonWd := [], [];
    for i := 0 to |named|
      invariant wd == Routed(named[..i], Decay)
      invariant nonWd == Routed(named[..i], NoDecay)
    {
      var param := named[i];
      assert named[..i + 1][..i] == named[..i];
      if param.rank == 1 {
        nonWd := nonWd + [param];
      } else if param.rank == 2 || param.rank == 4 {
        wd := wd + [param];
      }
    }
    assert named[..|named|] == named;
  }

  /** The `params_list` of the get_params branch: its four lists, the no-decay ones with weight
      decay `wd_val`, the lr-multiplied ones at 10 x the base learning rate. */
  function GetParamsGroups(l: ParamLists): seq<Group> {
    [ Group(l.wd, None, None, None),
      Group(l.nowd, None, None, Some(NoWeightDecay)),
      Group(l.lrMulWd, Some(LrStart * 10.0), None, None),
      Group(l.lrMulNowd, Some(LrStart * 10.0), None, Some(NoWeightDecay)) ]
  }

  /** The `params_list` of the rank-based branch, from the two lists its loop builds. */
  function RankGroups(wd: seq<Param>, nonWd: seq<Param>): seq<Group> {
    [ Group(wd, None, None, None), Group(nonWd, None, None, Some(0.0)) ]
  }

  /** The `params_list` set_optimizer builds, branch by branch. */
  function ParamsList(model: Model): seq<Group> {
    match model.getParams
    case Some(l) => GetParamsGroups(l)
    case None => RankGroups(Routed(model.named, Decay), Routed(model.named, NoDecay))
  }

  /** No parameter is in two groups. */
  predicate GroupsDisjoint(groups: seq<Group>) {
    forall i, j, x :: 0 <= i < j < |groups| && x in groups[i].params ==> x !in groups[j].params
  }

  /** What `torch.optim.SGD(params_list, ...)` gives: the optimizer, or the ValueError it raises
      when some parameter appears in more than one group. */
  datatype SgdOutcome = Built(opt: Sgd) | ParameterInSeveralGroups

  /** `torch.optim.SGD(groups, lr=lr_start, momentum=0.9, weight_decay=weight_decay)`. */
  function MakeSgd(groups: seq<Group>): SgdOutcome {
    if GroupsDisjoint(groups) then Built(Sgd(groups, LrStart, BaseMomentum, BaseWeightDecay))
    else ParameterInSeveralGroups
  }

  /** What set_optimizer returns, or the error it raises. */
  function OptimizerFor(model: Model): SgdOutcome {
    MakeSgd(ParamsList(model))
  }

  /** The hyperparameters each group trains with: its own key if it sets one, the optimizer's default otherwise. */
  function Resolve(opt: Sgd): seq<Resolved> {
    seq(|opt.groups|, i requires 0 <= i < |opt.groups| =>
      Resolved(opt.groups[i].params,
               opt.groups[i].lr.GetOr(opt.lr),
               opt.groups[i].momentum.GetOr(opt.momentum),
               opt.groups[i].weightDecay.GetOr(opt.weightDecay)))
  }

  method SetOptimizer(model: Model) returns (opt: SgdOutcome)
    ensures opt == OptimizerFor(model)
  {
    var paramsList: seq<Group>;
    if model.getParams.Some? {
      paramsList := GetParamsGroups(model.getParams.value);
    } else {
      var wd, nonWd := PartitionByRank(model.named);
      paramsList := RankGroups(wd, nonWd);
    }
    opt := MakeSgd(paramsList);
  }

  /** With get_params, SGD is built exactly when no parameter is in two of the four lists;
      otherwise it raises. */
  lemma GetParamsOverlap(model: Model)
    requires model.getParams.Some?
    ensures var l := model.getParams.value;
      OptimizerFor(model).ParameterInSeveralGroups? <==>
        (exists x :: x in l.wd && (x in l.nowd || x in l.lrMulWd || x in l.lrMulNowd))
        || (exists x :: x in l.nowd && (x in l.lrMulWd || x in l.lrMulNowd))
        || (exists x :: x in l.lrMulWd && x in l.lrMulNowd)
  {
    var l := model.getParams.value;
    var g := GetParamsGroups(l);
    assert g[0].params == l.wd && g[1].params == l.nowd && g[2].params == l.lrMulWd && g[3].params == l.lrMulNowd;
    if !GroupsDisjoint(g) {
      var i, j, x :| 0 <= i < j < |g| && x in g[i].params && x in g[j].params;
      assert x in l.wd || x in l.nowd || x in l.lrMulWd;
    }
  }

  /** Without get_params, SGD is always built: the rank test sends each parameter to one group only. */
  lemma FallbackBuilt(model: Model)
    requires model.getParams.None?
    ensures OptimizerFor(model).Built?
  {
    RoutedMembers(model.named, Decay);
    RoutedMembers(model.named, NoDecay);
  }

  /** Four groups with get_params, two without; momentum 0.9 everywhere; the odd-numbered
      (no-decay) groups train with weight decay 0 and the others with 5e-4; the last two
      get_params groups train at 10 x 1e-2 and every other group at 1e-2. */
  lemma GroupHyperparameters(model: Model)
    requires OptimizerFor(model).Built?
    ensures var rs := Resolve(OptimizerFor(model).opt);
      && |rs| == (if model.getParams.Some? then 4 else 2)
      && (forall i :: 0 <= i < |rs| ==> rs[i].momentum == 0.9)
      && (forall i :: 0 <= i < |rs| ==> rs[i].weightDecay == if i % 2 == 1 then 0.0 else 0.0005)
      && (forall i :: 0 <= i < |rs| ==> rs[i].lr == if i >= 2 then 0.1 else 0.01)
  {
  }

  /** With get_params, the groups hold its four lists unchanged and in order. */
  lemma GroupedParams(model: Model)
    requires model.getParams.Some? && OptimizerFor(model).Built?
    ensures var rs := Resolve(OptimizerFor(model).opt); var l := model.getParams.value;
      [rs[0].params, rs[1].params, rs[2].params, rs[3].params] == [l.wd, l.nowd, l.lrMulWd, l.lrMulNowd]
  {
  }

  /** Membership: a parameter is routed to `r` exactly when it is in `s` and its rank sends it there. */
  lemma {:induction false} RoutedMembers(s: seq<Param>, r: Route)
    ensures forall x :: x in Routed(s, r) <==> x in s && RouteOf(x) == r
  {
    if s != [] {
      var pre := s[..|s| - 1];
      RoutedMembers(pre, r);
      assert s == pre + [s[|s| - 1]];
    }
  }

  /** Order: group `r` is `s` read at the increasing positions of exactly the parameters routed to `r`. */
  lemma {:induction false} RoutedPositions(s: seq<Param>, r: Route)
    ensures var pos := Positions(s, r);
      && |pos| == |Routed(s, r)|
      && (forall j :: 0 <= j < |pos| ==> pos[j] < |s| && Routed(s, r)[j] == s[pos[j]])
      && (forall j, k :: 0 <= j < k < |pos| ==> pos[j] < pos[k])
      && (forall i :: 0 <= i < |s| ==> (i in pos <==> RouteOf(s[i]) == r))
  {
    if s != [] {
      var n := |s| - 1;
      var pre := s[..n];
      RoutedPositions(pre, r);
      var pos := Positions(s, r);
      assert forall i :: 0 <= i < n ==> pre[i] == s[i];
      assert forall j :: 0 <= j < |Positions(pre, r)| ==> Positions(pre, r)[j] < n;
    }
  }

  /** No parameter is lost or duplicated: the decay, no-decay and dropped parameters together are `s`. */
  lemma {:induction false} RoutedPartition(s: seq<Param>)
    ensures multiset(Routed(s, Decay)) + multiset(Routed(s, NoDecay)) + multiset(Routed(s, Dropped)) == multiset(s)
  {
    if s != [] {
      var pre, x := s[..|s| - 1], s[|s| - 1];
      assert multiset(s) == multiset(pre) + multiset{x} by {
        assert s == pre + [x];
      }
      RoutedPartition(pre);
      RoutedLastCount(s, Decay);
      RoutedLastCount(s, NoDecay);
      RoutedLastCount(s, Dropped);
    }
  }

  /** One step of RoutedPartition: the last parameter adds itself to the multiset of exactly its own group. */
  lemma RoutedLastCount(s: seq<Param>, r: Route)
    requires s != []
    ensures multiset(Routed(s, r)) == multiset(Routed(s[..|s| - 1], r)) + if RouteOf(s[|s| - 1]) == r then multiset{s[|s| - 1]} else multiset{}
  {
  }

  /** Without get_params: rank-1 parameters are in the no-decay group, rank-2 and rank-4 ones in
      the decay group, no parameter is in both, and any other rank is in neither. */
  lemma FallbackGroups(model: Model)
    requires model.getParams.None?
    ensures OptimizerFor(model).Built?
    ensures var rs := Resolve(OptimizerFor(model).opt);
      && (forall x :: x in rs[1].params <==> x in model.named && x.rank == 1)
      && (forall x :: x in rs[0].params <==> x in model.named && (x.rank == 2 || x.rank == 4))
      && (forall x :: !(x in rs[0].params && x in rs[1].params))
      && (forall x :: x in rs[0].params || x in rs[1].params <==> x in model.named && x.rank in {1, 2, 4})
  {
    FallbackBuilt(model);
    RoutedMembers(model.named, Decay);
    RoutedMembers(model.named, NoDecay);
  }
}
