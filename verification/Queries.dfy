/** Building queries from Go maps, whose iteration order is unspecified. The builder's own merging
    rules (what a second Limit or Offset does to the first) are those of the ORM. */
module Queries {
  import opened Text

  /** What a stage can hold for an operation; `Other` is any other kind of value. */
  datatype Param =
    | Words(text: string)
    | Number(n: int)
    | Names(names: seq<string>)
    | JoinOf(kind: string, table: string, on: string)
    | Nil
    | Other(id: nat)

  type Stage = map<string, Param>

  /** LIMIT and OFFSET share one clause. */
  datatype Limits = Absent | Present(limit: Option<int>, offset: int)

  datatype Query = Query(
    selects: seq<string>, badSelect: bool, wheres: seq<Param>, groups: seq<string>, havings: seq<Param>,
    orders: seq<string>, joins: seq<string>, limits: Limits)

  const EMPTY := Query([], false, [], [], [], [], [], Absent)

  /** Empty conditions are not added. */
  function Conditions(p: Param): seq<Param> {
    if p == Words("") || p == Nil then [] else [p]
  }

  function MergeLimit(l: Limits, n: int): Limits {
    match l
    case Absent => Present(Some(n), 0)
    case Present(limit, offset) =>
      Present(if n == 0 && limit.Some? then limit else Some(n), if offset > 0 then offset else 0)
  }

  function MergeOffset(l: Limits, m: int): Limits {
    match l
    case Absent => Present(None, m)
    case Present(limit, offset) => Present(limit, if m == 0 && offset > 0 then offset else if m < 0 then 0 else m)
  }

  /** One operation of a stage; None is the panic of a type assertion that fails. */
  function Apply(q: Query, op: string, p: Param): Option<Query> {
    if op == "select" then Some(
      match p
      case Words(text) => q.(selects := [text])
      case Names(names) => q.(selects := names)
      case _ => q.(badSelect := true))
    else if op == "where" then Some(q.(wheres := q.wheres + Conditions(p)))
    else if op == "group" then if p.Words? then Some(q.(groups := q.groups + [p.text])) else None
    else if op == "having" then Some(q.(havings := q.havings + Conditions(p)))
    else if op == "order" then
      if !p.Words? then None else Some(q.(orders := q.orders + if p.text == "" then [] else [p.text]))
    else if op == "join" then
      Some(if p.JoinOf? then q.(joins := q.joins + [p.kind + " " + p.table + " ON " + p.on]) else q)
    else if op == "limit" then if p.Number? then Some(q.(limits := MergeLimit(q.limits, p.n))) else None
    else if op == "offset" then if p.Number? then Some(q.(limits := MergeOffset(q.limits, p.n))) else None
    else Some(q)
  }

  // ---- what a stage does, whatever the order ------------------------------------------------

  function Get(stage: Stage, op: string): Param {
    if op in stage then stage[op] else Nil
  }

  /** Whether one of the operations has a value it cannot take. */
  predicate Panics(stage: Stage) {
    || ("group" in stage && !stage["group"].Words?)
    || ("order" in stage && !stage["order"].Words?)
    || ("limit" in stage && !stage["limit"].Number?)
    || ("offset" in stage && !stage["offset"].Number?)
  }

  function SelectPart(stage: Stage, old_: seq<string>): seq<string> {
    match Get(stage, "select")
    case Words(text) => [text]
    case Names(names) => names
    case _ => old_
  }

  function WordsPart(stage: Stage, op: string): seq<string> {
    match Get(stage, op)
    case Words(text) => if op == "order" && text == "" then [] else [text]
    case JoinOf(kind, table, on) => if op == "join" then [kind + " " + table + " ON " + on] else []
    case _ => []
  }

  function JoinPart(stage: Stage): seq<string> {
    if Get(stage, "join").JoinOf? then WordsPart(stage, "join") else []
  }

  function LimitPart(stage: Stage, l: Limits): Limits {
    var l1 := if Get(stage, "limit").Number? then MergeLimit(l, stage["limit"].n) else l;
    if Get(stage, "offset").Number? then MergeOffset(l1, stage["offset"].n) else l1
  }

  /** All of a stage at once: each clause gets what the stage holds for it. */
  function StageEffect(q: Query, stage: Stage): Option<Query> {
    if Panics(stage) then None
    else Some(Query(
      SelectPart(stage, q.selects),
      q.badSelect || ("select" in stage && !stage["select"].Words? && !stage["select"].Names?),
      q.wheres + Conditions(Get(stage, "where")),
      q.groups + WordsPart(stage, "group"),
      q.havings + Conditions(Get(stage, "having")),
      q.orders + WordsPart(stage, "order"),
      q.joins + JoinPart(stage),
      LimitPart(stage, q.limits)))
  }

  /** The stages after each other, in their order. */
  function Build(q: Query, stages: seq<Stage>): Option<Query>
    decreases |stages|
  {
    if stages == [] then Some(q)
    else match StageEffect(q, stages[0])
      case Some(r) => Build(r, stages[1..])
      case None => None
  }

  lemma LimitOffsetCommute(l: Limits, n: int, m: int)
    ensures MergeOffset(MergeLimit(l, n), m) == MergeLimit(MergeOffset(l, m), n)
  {
  }

  lemma AddNothing(q: Query)
    ensures q.wheres + [] == q.wheres && q.havings + [] == q.havings
    ensures q.groups + [] == q.groups && q.orders + [] == q.orders && q.joins + [] == q.joins
  {
  }

  lemma EmptyStage(q: Query)
    ensures StageEffect(q, map[]) == Some(q)
  {
    AddNothing(q);
  }

  /** An operation leaves the parts of the others alone. */
  lemma PartsKept(stage: Stage, op: string, p: Param)
    requires op !in stage
    ensures var more := stage[op := p];
      && (op != "select" ==> forall s :: SelectPart(more, s) == SelectPart(stage, s))
      && (op != "where" ==> Get(more, "where") == Get(stage, "where"))
      && (op != "having" ==> Get(more, "having") == Get(stage, "having"))
      && (op != "group" ==> WordsPart(more, "group") == WordsPart(stage, "group"))
      && (op != "order" ==> WordsPart(more, "order") == WordsPart(stage, "order"))
      && (op != "join" ==> JoinPart(more) == JoinPart(stage))
      && (op != "limit" && op != "offset" ==> forall l :: LimitPart(more, l) == LimitPart(stage, l))
  {
  }

  lemma LimitStep(stage: Stage, op: string, n: int, l: Limits)
    requires op !in stage && (op == "limit" || op == "offset")
    ensures LimitPart(stage[op := Number(n)], l)
         == if op == "limit" then MergeLimit(LimitPart(stage, l), n) else MergeOffset(LimitPart(stage, l), n)
  {
    if op == "limit" && Get(stage, "offset").Number? {
      LimitOffsetCommute(l, n, stage["offset"].n);
    }
  }

  lemma PanicsStep(stage: Stage, op: string, p: Param)
    requires op !in stage
    ensures Panics(stage[op := p]) <==> Panics(stage) || Panics(map[op := p])
  {
  }

  lemma PanicsAlone(q: Query, op: string, p: Param)
    ensures Panics(map[op := p]) <==> Apply(q, op, p).None?
  {
  }

  lemma LimitsStep(q: Query, stage: Stage, op: string, p: Param)
    requires op !in stage && (op == "limit" || op == "offset") && !Panics(stage[op := p])
    ensures StageEffect(q, stage).Some? && StageEffect(q, stage[op := p]) == Apply(StageEffect(q, stage).value, op, p)
  {
    PartsKept(stage, op, p);
    LimitStep(stage, op, p.n, q.limits);
  }

  lemma ClauseStep(q: Query, stage: Stage, op: string, p: Param)
    requires op !in stage && op != "limit" && op != "offset" && !Panics(stage[op := p])
    ensures StageEffect(q, stage).Some? && StageEffect(q, stage[op := p]) == Apply(StageEffect(q, stage).value, op, p)
  {
    PartsKept(stage, op, p);
    AddNothing(q);
  }

  /** One more operation, whichever the others were. */
  lemma StageStep(q: Query, stage: Stage, op: string, p: Param)
    requires op !in stage
    ensures StageEffect(q, stage[op := p])
         == if StageEffect(q, stage).Some? then Apply(StageEffect(q, stage).value, op, p) else None
  {
    PanicsStep(stage, op, p);
    if !Panics(stage[op := p]) {
      if op == "limit" || op == "offset" {
        LimitsStep(q, stage, op, p);
      } else {
        ClauseStep(q, stage, op, p);
      }
    } else if !Panics(stage) {
      PanicsAlone(StageEffect(q, stage).value, op, p);
    }
  }

  /** The stage's operations applied in some order. */
  function InOrder(q: Query, stage: Stage, order: seq<string>): Option<Query>
    requires forall o <- order :: o in stage
  {
    if order == [] then Some(q)
    else match InOrder(q, stage, order[..|order| - 1])
      case Some(r) => Apply(r, order[|order| - 1], stage[order[|order| - 1]])
      case None => None
  }

  function Restrict(stage: Stage, ops: set<string>): Stage {
    map o | o in stage && o in ops :: stage[o]
  }

  function Elements(order: seq<string>): set<string> {
    set o | o in order
  }

  /** Every order of a stage's map builds the same query. */
  lemma {:induction false} AnyOrder(q: Query, stage: Stage, order: seq<string>)
    requires forall o <- order :: o in stage
    requires forall i, j :: 0 <= i < j < |order| ==> order[i] != order[j]
    ensures InOrder(q, stage, order) == StageEffect(q, Restrict(stage, Elements(order)))
  {
    if order == [] {
      EmptyStage(q);
      assert Restrict(stage, Elements(order)) == map[];
    } else {
      var last, rest := order[|order| - 1], order[..|order| - 1];
      AnyOrder(q, stage, rest);
      assert order == rest + [last];
      assert last !in rest;
      StageStep(q, Restrict(stage, Elements(rest)), last, stage[last]);
      assert Restrict(stage, Elements(order)) == Restrict(stage, Elements(rest))[last := stage[last]];
    }
  }

  lemma {:induction false} BuildConcat(q: Query, a: seq<Stage>, b: seq<Stage>)
    ensures Build(q, a + b) == if Build(q, a).Some? then Build(Build(q, a).value, b) else None
    decreases |a|
  {
    if a == [] {
      assert a + b == b;
    } else {
      assert (a + b)[1..] == a[1..] + b;
      if StageEffect(q, a[0]).Some? {
        BuildConcat(StageEffect(q, a[0]).value, a[1..], b);
      }
    }
  }

  lemma BuildSnoc(q: Query, stages: seq<Stage>, i: nat)
    requires i < |stages|
    ensures Build(q, stages[..i + 1])
         == if Build(q, stages[..i]).Some? then StageEffect(Build(q, stages[..i]).value, stages[i]) else None
  {
    assert stages[..i + 1] == stages[..i] + [stages[i]];
    BuildConcat(q, stages[..i], [stages[i]]);
    assert [stages[i]][1..] == [];
  }

  /** Whichever way the maps are iterated, the query is the one the stages stand for. */
  method Aggregate(stages: seq<Stage>) returns (query: Option<Query>)
    ensures query == Build(EMPTY, stages)
  {
    var q := EMPTY;
    for i := 0 to |stages|
      invariant Build(EMPTY, stages[..i]) == Some(q)
    {
      BuildSnoc(EMPTY, stages, i);
      var next := ApplyStage(q, stages[i]);
      if next.None? {
        assert stages[..i + 1] + stages[i + 1..] == stages;
        BuildConcat(EMPTY, stages[..i + 1], stages[i + 1..]);
        return None;
      }
      q := next.value;
    }
    assert stages[..|stages|] == stages;
    query := Some(q);
  }

  method ApplyStage(start: Query, stage: Stage) returns (r: Option<Query>)
    ensures r == StageEffect(start, stage)
  {
    var query, left := start, stage.Keys;
    ghost var done: Stage := map[];
    EmptyStage(start);
    while left != {}
      invariant left <= stage.Keys
      invariant done == Restrict(stage, stage.Keys - left)
      invariant StageEffect(start, done) == Some(query)
      decreases |left|
    {
      var op :| op in left;
      StageStep(start, done, op, stage[op]);
      var next := Apply(query, op, stage[op]);
      left := left - {op};
      done := done[op := stage[op]];
      if next.None? {
        PanicsMore(done, stage);
        return None;
      }
      query := next.value;
    }
    assert done == stage;
    r := Some(query);
  }

  lemma PanicsMore(part: Stage, stage: Stage)
    requires Panics(part) && forall o <- part :: o in stage && stage[o] == part[o]
    ensures Panics(stage)
  {
  }

  // ---- what a built query holds, clause by clause ---------------------------------------------

  /** The values the stages hold for an operation, in stage order. */
  function Held(stages: seq<Stage>, op: string): seq<Param> {
    if stages == [] then [] else (if op in stages[0] then [stages[0][op]] else []) + Held(stages[1..], op)
  }

  predicate Blank(p: Param) {
    p == Words("") || p == Nil
  }

  function NonBlank(ps: seq<Param>): seq<Param> {
    if ps == [] then [] else (if Blank(ps[0]) then [] else [ps[0]]) + NonBlank(ps[1..])
  }

  function Texts(ps: seq<Param>): seq<string> {
    if ps == [] then [] else (if ps[0].Words? then [ps[0].text] else []) + Texts(ps[1..])
  }

  function JoinTexts(ps: seq<Param>): seq<string> {
    if ps == [] then []
    else (if ps[0].JoinOf? then [ps[0].kind + " " + ps[0].table + " ON " + ps[0].on] else []) + JoinTexts(ps[1..])
  }

  lemma {:induction false} HeldIff(stages: seq<Stage>, op: string, p: Param)
    ensures p in Held(stages, op) <==> exists st <- stages :: op in st && st[op] == p
    decreases |stages|
  {
    if stages != [] {
      HeldIff(stages[1..], op, p);
      assert stages == [stages[0]] + stages[1..];
    }
  }

  lemma {:induction false} NonBlankIff(ps: seq<Param>, p: Param)
    ensures p in NonBlank(ps) <==> p in ps && !Blank(p)
  {
    if ps != [] {
      NonBlankIff(ps[1..], p);
      assert ps == [ps[0]] + ps[1..];
    }
  }

  lemma StageConditions(q: Query, stage: Stage)
    requires StageEffect(q, stage).Some?
    ensures var r := StageEffect(q, stage).value;
      && r.wheres == q.wheres + (if "where" in stage && !Blank(stage["where"]) then [stage["where"]] else [])
      && r.havings == q.havings + (if "having" in stage && !Blank(stage["having"]) then [stage["having"]] else [])
  {
  }

  lemma {:induction false} NonBlankConcat(a: seq<Param>, b: seq<Param>)
    ensures NonBlank(a + b) == NonBlank(a) + NonBlank(b)
  {
    if a == [] {
      assert a + b == b;
    } else {
      assert (a + b)[1..] == a[1..] + b;
      NonBlankConcat(a[1..], b);
    }
  }

  lemma HeldFirst(stages: seq<Stage>, op: string)
    requires stages != []
    ensures NonBlank(Held(stages, op))
         == (if op in stages[0] && !Blank(stages[0][op]) then [stages[0][op]] else []) + NonBlank(Held(stages[1..], op))
  {
    var first := if op in stages[0] then [stages[0][op]] else [];
    NonBlankConcat(first, Held(stages[1..], op));
    assert first != [] ==> first[1..] == [];
  }

  lemma AppendThen<T>(start: seq<T>, first: seq<T>, rest: seq<T>)
    ensures start + first + rest == start + (first + rest)
  {
  }

  /** WHERE and HAVING hold what the stages hold for them, but for empty conditions, in order. */
  lemma {:induction false} BuiltConditions(q: Query, stages: seq<Stage>)
    requires Build(q, stages).Some?
    ensures Build(q, stages).value.wheres == q.wheres + NonBlank(Held(stages, "where"))
    ensures Build(q, stages).value.havings == q.havings + NonBlank(Held(stages, "having"))
    decreases |stages|
  {
    if stages != [] {
      var r := StageEffect(q, stages[0]).value;
      StageConditions(q, stages[0]);
      BuiltConditions(r, stages[1..]);
      HeldFirst(stages, "where");
      HeldFirst(stages, "having");
      var rest := stages[1..];
      AppendThen(q.wheres, if "where" in stages[0] && !Blank(stages[0]["where"]) then [stages[0]["where"]] else [],
                 NonBlank(Held(rest, "where")));
      AppendThen(q.havings, if "having" in stages[0] && !Blank(stages[0]["having"]) then [stages[0]["having"]] else [],
                 NonBlank(Held(rest, "having")));
    }
  }

  /** So a condition is in a built query exactly if some stage holds it there and it is not empty. */
  lemma ConditionIff(stages: seq<Stage>, p: Param)
    requires Build(EMPTY, stages).Some?
    ensures p in Build(EMPTY, stages).value.wheres <==>
      p != Words("") && p != Nil && exists st <- stages :: "where" in st && st["where"] == p
    ensures p in Build(EMPTY, stages).value.havings <==>
      p != Words("") && p != Nil && exists st <- stages :: "having" in st && st["having"] == p
  {
    BuiltConditions(EMPTY, stages);
    NonBlankIff(Held(stages, "where"), p);
    NonBlankIff(Held(stages, "having"), p);
    HeldIff(stages, "where", p);
    HeldIff(stages, "having", p);
  }

  lemma {:induction false} TextsConcat(a: seq<Param>, b: seq<Param>)
    ensures Texts(a + b) == Texts(a) + Texts(b)
  {
    if a == [] {
      assert a + b == b;
    } else {
      assert (a + b)[1..] == a[1..] + b;
      TextsConcat(a[1..], b);
    }
  }

  lemma {:induction false} JoinTextsConcat(a: seq<Param>, b: seq<Param>)
    ensures JoinTexts(a + b) == JoinTexts(a) + JoinTexts(b)
  {
    if a == [] {
      assert a + b == b;
    } else {
      assert (a + b)[1..] == a[1..] + b;
      JoinTextsConcat(a[1..], b);
    }
  }

  lemma TextOfOne(p: Param)
    ensures Texts([p]) == (if p.Words? then [p.text] else [])
    ensures JoinTexts([p]) == (if p.JoinOf? then [p.kind + " " + p.table + " ON " + p.on] else [])
  {
    var one := [p];
    assert one[1..] == [];
  }

  /** The one text a stage adds to a clause, if any. */
  function GroupText(stage: Stage): seq<string> {
    if "group" in stage && stage["group"].Words? then [stage["group"].text] else []
  }

  function OrderText(stage: Stage): seq<string> {
    if "order" in stage && !Blank(stage["order"]) && stage["order"].Words? then [stage["order"].text] else []
  }

  function JoinText(stage: Stage): seq<string> {
    if "join" in stage && stage["join"].JoinOf?
    then [stage["join"].kind + " " + stage["join"].table + " ON " + stage["join"].on]
    else []
  }

  lemma StageTexts(q: Query, stage: Stage)
    requires StageEffect(q, stage).Some?
    ensures var r := StageEffect(q, stage).value;
      && r.groups == q.groups + GroupText(stage)
      && r.orders == q.orders + OrderText(stage)
      && r.joins == q.joins + JoinText(stage)
  {
  }

  lemma FirstGroup(stages: seq<Stage>)
    requires stages != []
    ensures Texts(Held(stages, "group")) == GroupText(stages[0]) + Texts(Held(stages[1..], "group"))
  {
    TextsConcat(if "group" in stages[0] then [stages[0]["group"]] else [], Held(stages[1..], "group"));
    if "group" in stages[0] {
      TextOfOne(stages[0]["group"]);
    }
  }

  lemma FirstOrder(stages: seq<Stage>)
    requires stages != []
    ensures Texts(NonBlank(Held(stages, "order"))) == OrderText(stages[0]) + Texts(NonBlank(Held(stages[1..], "order")))
  {
    var first := if "order" in stages[0] && !Blank(stages[0]["order"]) then [stages[0]["order"]] else [];
    HeldFirst(stages, "order");
    TextsConcat(first, NonBlank(Held(stages[1..], "order")));
    if first != [] {
      TextOfOne(stages[0]["order"]);
    }
  }

  lemma FirstJoin(stages: seq<Stage>)
    requires stages != []
    ensures JoinTexts(Held(stages, "join")) == JoinText(stages[0]) + JoinTexts(Held(stages[1..], "join"))
  {
    JoinTextsConcat(if "join" in stages[0] then [stages[0]["join"]] else [], Held(stages[1..], "join"));
    if "join" in stages[0] {
      TextOfOne(stages[0]["join"]);
    }
  }

  /** GROUP BY holds the stages' own texts, in order, */
  lemma {:induction false} BuiltGroups(q: Query, stages: seq<Stage>)
    requires Build(q, stages).Some?
    ensures Build(q, stages).value.groups == q.groups + Texts(Held(stages, "group"))
    decreases |stages|
  {
    if stages != [] {
      StageTexts(q, stages[0]);
      BuiltGroups(StageEffect(q, stages[0]).value, stages[1..]);
      FirstGroup(stages);
      AppendThen(q.groups, GroupText(stages[0]), Texts(Held(stages[1..], "group")));
    }
  }

  /** ORDER BY too, but for empty ones, */
  lemma {:induction false} BuiltOrders(q: Query, stages: seq<Stage>)
    requires Build(q, stages).Some?
    ensures Build(q, stages).value.orders == q.orders + Texts(NonBlank(Held(stages, "order")))
    decreases |stages|
  {
    if stages != [] {
      StageTexts(q, stages[0]);
      BuiltOrders(StageEffect(q, stages[0]).value, stages[1..]);
      FirstOrder(stages);
      AppendThen(q.orders, OrderText(stages[0]), Texts(NonBlank(Held(stages[1..], "order"))));
    }
  }

  /** and the joins are the stages' own, as type, table and condition. */
  lemma {:induction false} BuiltJoins(q: Query, stages: seq<Stage>)
    requires Build(q, stages).Some?
    ensures Build(q, stages).value.joins == q.joins + JoinTexts(Held(stages, "join"))
    decreases |stages|
  {
    if stages != [] {
      StageTexts(q, stages[0]);
      BuiltJoins(StageEffect(q, stages[0]).value, stages[1..]);
      FirstJoin(stages);
      AppendThen(q.joins, JoinText(stages[0]), JoinTexts(Held(stages[1..], "join")));
    }
  }

  predicate Selects(stage: Stage) {
    "select" in stage && (stage["select"].Words? || stage["select"].Names?)
  }

  /** Without a usable selection the one there was stays. */
  lemma {:induction false} SelectKept(q: Query, stages: seq<Stage>)
    requires Build(q, stages).Some? && forall st <- stages :: !Selects(st)
    ensures Build(q, stages).value.selects == q.selects
    decreases |stages|
  {
    if stages != [] {
      assert stages[0] in stages && forall st <- stages[1..] :: st in stages;
      SelectKept(StageEffect(q, stages[0]).value, stages[1..]);
    }
  }

  /** The last usable selection is the query's. */
  lemma {:induction false} SelectLast(q: Query, stages: seq<Stage>, i: nat)
    requires Build(q, stages).Some? && i < |stages| && Selects(stages[i])
    requires forall j :: i < j < |stages| ==> !Selects(stages[j])
    ensures stages[i]["select"].Words? ==> Build(q, stages).value.selects == [stages[i]["select"].text]
    ensures stages[i]["select"].Names? ==> Build(q, stages).value.selects == stages[i]["select"].names
    decreases |stages|
  {
    var r := StageEffect(q, stages[0]).value;
    if i == 0 {
      SelectKept(r, stages[1..]);
    } else {
      SelectLast(r, stages[1..], i - 1);
    }
  }

  /** A query is marked exactly if some stage holds a selection that is no text and no list. */
  lemma {:induction false} BadSelectIff(q: Query, stages: seq<Stage>)
    requires Build(q, stages).Some?
    ensures Build(q, stages).value.badSelect <==>
      q.badSelect || exists st <- stages :: "select" in st && !Selects(st)
    decreases |stages|
  {
    if stages != [] {
      BadSelectIff(StageEffect(q, stages[0]).value, stages[1..]);
      assert stages == [stages[0]] + stages[1..];
    }
  }

  predicate Gives(stage: Stage, op: string) {
    op in stage && stage[op].Number? && stage[op].n != 0
  }

  /** Limit and offset of a single stage are the numbers it gives; a negative offset beside a limit
      counts as none. */
  lemma OneStageLimits(stage: Stage)
    requires StageEffect(EMPTY, stage).Some?
    ensures var limits := StageEffect(EMPTY, stage).value.limits;
      && ("limit" !in stage && "offset" !in stage ==> limits == Absent)
      && ("limit" in stage && "offset" !in stage ==> limits == Present(Some(stage["limit"].n), 0))
      && ("limit" !in stage && "offset" in stage ==> limits == Present(None, stage["offset"].n))
      && ("limit" in stage && "offset" in stage ==>
            limits == Present(Some(stage["limit"].n), if stage["offset"].n < 0 then 0 else stage["offset"].n))
  {
  }

  lemma {:induction false} LimitKept(q: Query, stages: seq<Stage>)
    requires Build(q, stages).Some? && q.limits.Present? && q.limits.limit.Some?
    requires forall st <- stages :: !Gives(st, "limit")
    ensures Build(q, stages).value.limits.Present?
    ensures Build(q, stages).value.limits.limit == q.limits.limit
    decreases |stages|
  {
    if stages != [] {
      assert stages[0] in stages && forall st <- stages[1..] :: st in stages;
      LimitKept(StageEffect(q, stages[0]).value, stages[1..]);
    }
  }

  /** Of several limits the last that is not zero counts. */
  lemma {:induction false} LimitLast(q: Query, stages: seq<Stage>, i: nat)
    requires Build(q, stages).Some? && i < |stages| && Gives(stages[i], "limit")
    requires forall j :: i < j < |stages| ==> !Gives(stages[j], "limit")
    ensures Build(q, stages).value.limits.Present?
    ensures Build(q, stages).value.limits.limit == Some(stages[i]["limit"].n)
    decreases |stages|
  {
    var r := StageEffect(q, stages[0]).value;
    if i == 0 {
      LimitKept(r, stages[1..]);
    } else {
      LimitLast(r, stages[1..], i - 1);
    }
  }

  lemma {:induction false} OffsetKept(q: Query, stages: seq<Stage>)
    requires Build(q, stages).Some? && q.limits.Present? && q.limits.offset > 0
    requires forall st <- stages :: !Gives(st, "offset")
    ensures Build(q, stages).value.limits.Present?
    ensures Build(q, stages).value.limits.offset == q.limits.offset
    decreases |stages|
  {
    if stages != [] {
      assert stages[0] in stages && forall st <- stages[1..] :: st in stages;
      OffsetKept(StageEffect(q, stages[0]).value, stages[1..]);
    }
  }

  /** And of several offsets, if it is positive. */
  lemma {:induction false} OffsetLast(q: Query, stages: seq<Stage>, i: nat)
    requires Build(q, stages).Some? && i < |stages| && Gives(stages[i], "offset") && stages[i]["offset"].n > 0
    requires forall j :: i < j < |stages| ==> !Gives(stages[j], "offset")
    ensures Build(q, stages).value.limits.Present?
    ensures Build(q, stages).value.limits.offset == stages[i]["offset"].n
    decreases |stages|
  {
    var r := StageEffect(q, stages[0]).value;
    if i == 0 {
      OffsetKept(r, stages[1..]);
    } else {
      OffsetLast(r, stages[1..], i - 1);
    }
  }

  function LimitOf(l: Limits): Option<int> {
    match l
    case Absent => None
    case Present(limit, _) => limit
  }

  function OffsetOf(l: Limits): int {
    match l
    case Absent => 0
    case Present(_, offset) => offset
  }

  /** Where no stage gives a limit that is not zero, there is none, or zero if one says so. */
  lemma {:induction false} LimitNone(q: Query, stages: seq<Stage>)
    requires Build(q, stages).Some? && forall st <- stages :: !Gives(st, "limit")
    requires LimitOf(q.limits) == None || LimitOf(q.limits) == Some(0)
    ensures LimitOf(Build(q, stages).value.limits)
         == if LimitOf(q.limits).Some? || exists st <- stages :: "limit" in st then Some(0) else None
    decreases |stages|
  {
    if stages != [] {
      assert stages[0] in stages && stages == [stages[0]] + stages[1..];
      LimitNone(StageEffect(q, stages[0]).value, stages[1..]);
    }
  }

  /** Rows are skipped only if the last offset that is not zero is positive. */
  lemma {:induction false} OffsetNone(q: Query, stages: seq<Stage>)
    requires Build(q, stages).Some? && OffsetOf(q.limits) <= 0
    requires forall st: Stage <- stages :: Gives(st, "offset") ==> st["offset"].n < 0
    ensures OffsetOf(Build(q, stages).value.limits) <= 0
    decreases |stages|
  {
    if stages != [] {
      assert stages == [stages[0]] + stages[1..];
      OffsetNone(StageEffect(q, stages[0]).value, stages[1..]);
    }
  }

  lemma {:induction false} OffsetDropped(q: Query, stages: seq<Stage>, i: nat)
    requires Build(q, stages).Some? && i < |stages| && Gives(stages[i], "offset") && stages[i]["offset"].n < 0
    requires forall j :: i < j < |stages| ==> !Gives(stages[j], "offset")
    ensures OffsetOf(Build(q, stages).value.limits) <= 0
    decreases |stages|
  {
    var r := StageEffect(q, stages[0]).value;
    if i == 0 {
      OffsetNone(r, stages[1..]);
    } else {
      OffsetDropped(r, stages[1..], i - 1);
    }
  }

  predicate HoldsOther(stages: seq<Stage>, op: string) {
    exists st: Stage <- stages :: op in st && !st[op].Words?
  }

  predicate HoldsNoNumber(stages: seq<Stage>, op: string) {
    exists st: Stage <- stages :: op in st && !st[op].Number?
  }

  /** Building panics exactly if some stage has a group or order that is no text, or a limit or
      offset that is no number. */
  lemma {:induction false} PanicIff(q: Query, stages: seq<Stage>)
    ensures Build(q, stages).None? <==>
      HoldsOther(stages, "group") || HoldsOther(stages, "order")
      || HoldsNoNumber(stages, "limit") || HoldsNoNumber(stages, "offset")
    decreases |stages|
  {
    if stages != [] {
      assert stages == [stages[0]] + stages[1..];
      if StageEffect(q, stages[0]).Some? {
        PanicIff(StageEffect(q, stages[0]).value, stages[1..]);
      }
    }
  }

  // ---- filters ------------------------------------------------------------------------------

  /** The query List builds, with its conditions in iteration order. */
  datatype ListQuery<V> = ListQuery(
    conditions: seq<(string, V)>, orders: seq<string>, offset: Option<int>, limit: Option<int>)

  /** A row meets a filter when it meets every entry. */
  predicate Meets<V, Row>(holds: (string, V, Row) -> bool, filter: map<string, V>, row: Row) {
    forall f <- filter :: holds(f, filter[f], row)
  }

  predicate MeetsAll<V, Row>(holds: (string, V, Row) -> bool, conditions: seq<(string, V)>, row: Row) {
    forall i :: 0 <= i < |conditions| ==> holds(conditions[i].0, conditions[i].1, row)
  }

  method AddFilter<V>(filter: map<string, V>) returns (conditions: seq<(string, V)>)
    ensures forall f, v :: (f, v) in conditions <==> f in filter && filter[f] == v
    ensures |conditions| == |filter|
  {
    conditions := [];
    var left := filter.Keys;
    while left != {}
      invariant left <= filter.Keys && |conditions| + |left| == |filter.Keys|
      invariant forall f, v :: (f, v) in conditions <==> f in filter && f !in left && filter[f] == v
      decreases |left|
    {
      var f :| f in left;
      conditions, left := conditions + [(f, filter[f])], left - {f};
    }
  }

  /** Skip and limit count only when they are positive. */
  method BuildList<V>(filter: map<string, V>, skip: int, limit: int, sorts: seq<string>) returns (q: ListQuery<V>)
    ensures forall f, v :: (f, v) in q.conditions <==> f in filter && filter[f] == v
    ensures q.orders == sorts
    ensures q.offset == (if skip > 0 then Some(skip) else None) && q.limit == (if limit > 0 then Some(limit) else None)
  {
    var conditions := AddFilter(filter);
    var orders := [];
    for i := 0 to |sorts|
      invariant orders == sorts[..i]
    {
      orders := orders + [sorts[i]];
    }
    q := ListQuery(conditions, orders, if skip > 0 then Some(skip) else None, if limit > 0 then Some(limit) else None);
  }

  /** So List and FindOne select the same rows whatever the order of their filter map. */
  lemma FilterAnyOrder<V, Row>(holds: (string, V, Row) -> bool, filter: map<string, V>,
                               conditions: seq<(string, V)>, row: Row)
    requires forall f, v :: (f, v) in conditions <==> f in filter && filter[f] == v
    ensures MeetsAll(holds, conditions, row) <==> Meets(holds, filter, row)
  {
    if MeetsAll(holds, conditions, row) {
      forall f | f in filter ensures holds(f, filter[f], row) {
        assert (f, filter[f]) in conditions;
        var i :| 0 <= i < |conditions| && conditions[i] == (f, filter[f]);
      }
    }
    forall i | 0 <= i < |conditions| && Meets(holds, filter, row) ensures holds(conditions[i].0, conditions[i].1, row) {
      assert conditions[i] == (conditions[i].0, conditions[i].1) && conditions[i] in conditions;
    }
  }
}

/** Pages of a sorted answer. The server may break ties in the sort order differently each time. */
module Paging {
  predicate Sorted<T>(le: (T, T) -> bool, rows: seq<T>) {
    forall i, j :: 0 <= i < j < |rows| ==> le(rows[i], rows[j])
  }

  /** An answer to the query without a limit: the selected rows, sorted. */
  ghost predicate Answer<T>(le: (T, T) -> bool, selected: seq<T>, rows: seq<T>) {
    multiset(rows) == multiset(selected) && Sorted(le, rows)
  }

  /** What skip and limit leave of an answer. */
  function Page<T>(rows: seq<T>, skip: int, limit: int): seq<T> {
    var from := if skip <= 0 then 0 else if skip < |rows| then skip else |rows|;
    var left := rows[from..];
    if limit <= 0 || limit >= |left| then left else left[..limit]
  }

  /** Row by row: a page starts after the rows skipped and ends with the rows or at its limit; what is
      not positive neither skips nor limits. */
  lemma PageRow<T>(rows: seq<T>, skip: int, limit: int, k: nat)
    ensures k < |Page(rows, skip, limit)| <==> (if skip > 0 then skip else 0) + k < |rows| && (limit > 0 ==> k < limit)
    ensures k < |Page(rows, skip, limit)| ==> Page(rows, skip, limit)[k] == rows[(if skip > 0 then skip else 0) + k]
  {
  }

  ghost predicate PageAnswer<T(!new)>(le: (T, T) -> bool, selected: seq<T>, skip: int, limit: int, page: seq<T>) {
    exists rows :: Answer(le, selected, rows) && page == Page(rows, skip, limit)
  }

  /** One page of `size` rows after another, each answered on its own. */
  ghost predicate Pages<T(!new)>(le: (T, T) -> bool, selected: seq<T>, size: int, pages: seq<seq<T>>) {
    forall k :: 0 <= k < |pages| ==> PageAnswer(le, selected, k * size, size, pages[k])
  }

  function Flatten<T>(pages: seq<seq<T>>): seq<T> {
    if pages == [] then [] else Flatten(pages[..|pages| - 1]) + pages[|pages| - 1]
  }

  ghost predicate TotalPreorder<T(!new)>(le: (T, T) -> bool) {
    && (forall x :: le(x, x))
    && (forall x, y :: le(x, y) || le(y, x))
    && (forall x, y, z :: le(x, y) && le(y, z) ==> le(x, z))
  }

  predicate Distinct<T(==)>(rows: seq<T>) {
    forall i, j :: 0 <= i < j < |rows| ==> rows[i] != rows[j]
  }

  /** The sort order tells all selected rows apart. */
  predicate NoTies<T(==)>(le: (T, T) -> bool, rows: seq<T>) {
    forall x <- rows :: forall y <- rows :: le(x, y) && le(y, x) ==> x == y
  }

  lemma FirstSame<T>(le: (T, T) -> bool, a: seq<T>, b: seq<T>)
    requires a != [] && b != [] && multiset(a) == multiset(b) && Sorted(le, a) && Sorted(le, b)
    requires NoTies(le, a) && (forall x <- a :: le(x, x))
    ensures a[0] == b[0]
  {
    assert a[0] in multiset(b) && b[0] in multiset(a);
    var i :| 0 <= i < |b| && b[i] == a[0];
    var j :| 0 <= j < |a| && a[j] == b[0];
    if j > 0 && i > 0 {
      assert le(a[0], a[j]) && le(b[0], b[i]);
      assert a[0] in a && a[j] in a;
    }
  }

  lemma RestSame<T>(a: seq<T>, b: seq<T>)
    requires a != [] && b != [] && multiset(a) == multiset(b) && a[0] == b[0]
    ensures multiset(a[1..]) == multiset(b[1..])
  {
    assert a == [a[0]] + a[1..] && b == [b[0]] + b[1..];
    assert multiset(a[1..]) == multiset(a) - multiset{a[0]};
    assert multiset(b[1..]) == multiset(b) - multiset{b[0]};
  }

  /** Without ties there is only one answer. */
  lemma {:induction false} AnswerUnique<T>(le: (T, T) -> bool, a: seq<T>, b: seq<T>)
    requires multiset(a) == multiset(b) && Sorted(le, a) && Sorted(le, b) && NoTies(le, a)
    requires (forall x <- a :: le(x, x))
    ensures a == b
    decreases |a|
  {
    assert |a| == |multiset(a)| && |b| == |multiset(b)|;
    if a != [] {
      FirstSame(le, a, b);
      RestSame(a, b);
      TailKeeps(le, a);
      TailKeeps(le, b);
      AnswerUnique(le, a[1..], b[1..]);
      assert a == [a[0]] + a[1..] && b == [b[0]] + b[1..];
    }
  }

  lemma TailKeeps<T>(le: (T, T) -> bool, a: seq<T>)
    requires a != [] && Sorted(le, a)
    ensures Sorted(le, a[1..])
    ensures NoTies(le, a) ==> NoTies(le, a[1..])
    ensures (forall x <- a :: le(x, x)) ==> (forall x <- a[1..] :: le(x, x))
  {
    assert forall x <- a[1..] :: x in a;
  }

  lemma {:induction false} PagesOfOne<T>(rows: seq<T>, size: int, pages: seq<seq<T>>)
    requires size > 0 && forall k :: 0 <= k < |pages| ==> pages[k] == Page(rows, k * size, size)
    ensures |pages| * size >= 0
    ensures Flatten(pages) == Upto(rows, |pages| * size)
    decreases |pages|
  {
    if pages != [] {
      var n := |pages| - 1;
      PagesOfOne(rows, size, pages[..n]);
      LastPage(rows, size, pages, n);
    }
  }

  lemma LastPage<T>(rows: seq<T>, size: int, pages: seq<seq<T>>, n: nat)
    requires size > 0 && |pages| == n + 1 && n * size >= 0 && pages[n] == Page(rows, n * size, size)
    requires Flatten(pages[..n]) == Upto(rows, n * size)
    ensures |pages| * size >= 0 && Flatten(pages) == Upto(rows, |pages| * size)
  {
    OneMore(n, size);
    OneMorePage(rows, n * size, size);
  }

  lemma OneMore(n: nat, size: int)
    ensures (n + 1) * size == n * size + size
  {
  }

  function Upto<T>(rows: seq<T>, n: int): seq<T>
    requires n >= 0
  {
    if n < |rows| then rows[..n] else rows
  }

  lemma OneMorePage<T>(rows: seq<T>, from: int, size: int)
    requires from >= 0 && size > 0
    ensures Upto(rows, from) + Page(rows, from, size) == Upto(rows, from + size)
  {
  }

  lemma AnswersTie<T>(le: (T, T) -> bool, selected: seq<T>, rows: seq<T>, x: T, y: T) returns (i: nat, j: nat)
    requires Answer(le, selected, rows) && x in selected && y in selected && x != y && le(x, y) && le(y, x)
    ensures i < j < |rows| && {rows[i], rows[j]} == {x, y}
  {
    assert x in multiset(rows) && y in multiset(rows);
    var a :| 0 <= a < |rows| && rows[a] == x;
    var b :| 0 <= b < |rows| && rows[b] == y;
    i, j := if a < b then a else b, if a < b then b else a;
  }

  /** Exchanging two rows that tie is another answer. */
  lemma SwapAnswer<T(!new)>(le: (T, T) -> bool, selected: seq<T>, rows: seq<T>, i: nat, j: nat)
    requires TotalPreorder(le) && Answer(le, selected, rows) && i < j < |rows| && le(rows[j], rows[i])
    ensures Answer(le, selected, rows[i := rows[j]][j := rows[i]])
  {
    var other := rows[i := rows[j]][j := rows[i]];
    assert forall k :: i <= k <= j ==> le(rows[k], rows[i]) && le(rows[i], rows[k]) by {
      forall k | i <= k <= j ensures le(rows[k], rows[i]) && le(rows[i], rows[k]) {
        assert k < j ==> le(rows[k], rows[j]);
      }
    }
    forall p, q | 0 <= p < q < |other| ensures le(other[p], other[q]) {
      var p', q' := if p == i then j else if p == j then i else p, if q == i then j else if q == j then i else q;
      assert other[p] == rows[p'] && other[q] == rows[q'];
      if p' > q' {
        assert i <= q' <= j && i <= p' <= j;
      }
    }
  }

  /** Pages of any size put together are the whole answer, for every way the server may answer each
      of them, exactly when the sort order leaves no ties among the selected rows. */
  lemma PagingIff<T(!new)>(le: (T, T) -> bool, selected: seq<T>, rows: seq<T>)
    requires TotalPreorder(le) && Distinct(selected) && Answer(le, selected, rows)
    ensures NoTies(le, selected) <==>
      (forall size: int, pages: seq<seq<T>> ::
        size > 0 && Pages(le, selected, size, pages) && |pages| * size >= |rows| ==> Flatten(pages) == rows)
  {
    if NoTies(le, selected) {
      forall size: int, pages: seq<seq<T>> | size > 0 && Pages(le, selected, size, pages) && |pages| * size >= |rows|
        ensures Flatten(pages) == rows
      {
        PagesComplete(le, selected, rows, size, pages);
      }
    } else {
      var x, y :| x in selected && y in selected && le(x, y) && le(y, x) && x != y;
      var pages := TiedPages(le, selected, rows, x, y);
      assert Pages(le, selected, 1, pages) && |pages| * 1 >= |rows|;
    }
  }

  lemma PagesComplete<T(!new)>(le: (T, T) -> bool, selected: seq<T>, rows: seq<T>, size: int, pages: seq<seq<T>>)
    requires TotalPreorder(le) && NoTies(le, selected) && Answer(le, selected, rows)
    requires size > 0 && Pages(le, selected, size, pages) && |pages| * size >= |rows|
    ensures Flatten(pages) == rows
  {
    forall x | x in rows ensures x in selected {
      assert x in multiset(selected);
    }
    forall k | 0 <= k < |pages| ensures pages[k] == Page(rows, k * size, size) {
      var own :| Answer(le, selected, own) && pages[k] == Page(own, k * size, size);
      AnswerUnique(le, rows, own);
    }
    PagesOfOne(rows, size, pages);
  }

  /** With a tie, pages of one row can repeat one row and lose another. */
  lemma TiedPages<T(!new)>(le: (T, T) -> bool, selected: seq<T>, rows: seq<T>, x: T, y: T) returns (pages: seq<seq<T>>)
    requires TotalPreorder(le) && Distinct(selected) && Answer(le, selected, rows)
    requires x in selected && y in selected && x != y && le(x, y) && le(y, x)
    ensures Pages(le, selected, 1, pages) && |pages| == |rows| && Flatten(pages) != rows
    ensures !Distinct(Flatten(pages)) && exists r <- rows :: r !in Flatten(pages)
  {
    var i, j := AnswersTie(le, selected, rows, x, y);
    SwapAnswer(le, selected, rows, i, j);
    var other := rows[i := rows[j]][j := rows[i]];
    pages := seq(|rows|, k requires 0 <= k < |rows| => if k == i then [rows[j]] else [rows[k]]);
    forall k | 0 <= k < |pages| ensures PageAnswer(le, selected, k * 1, 1, pages[k]) {
      PageOfOne(rows, k);
      PageOfOne(other, k);
    }
    FlattenOnes(pages);
    DistinctAnswer(selected, rows);
    TiedRows(rows, i, j, Flatten(pages));
  }

  lemma PageOfOne<T>(rows: seq<T>, k: nat)
    requires k < |rows|
    ensures Page(rows, k * 1, 1) == [rows[k]]
  {
  }

  lemma TiedRows<T>(rows: seq<T>, i: nat, j: nat, flat: seq<T>)
    requires Distinct(rows) && i < j < |rows| && |flat| == |rows|
    requires forall k :: 0 <= k < |rows| ==> flat[k] == if k == i then rows[j] else rows[k]
    ensures !Distinct(flat) && rows[i] !in flat && rows[i] in rows && flat != rows
  {
    assert flat[i] == flat[j];
  }

  lemma {:induction false} CountOnce<T>(rows: seq<T>)
    ensures Distinct(rows) <==> forall x <- rows :: multiset(rows)[x] == 1
  {
    if rows != [] {
      var rest := rows[..|rows| - 1];
      var last := rows[|rows| - 1];
      CountOnce(rest);
      assert rows == rest + [last];
      assert multiset(rows)[last] == multiset(rest)[last] + 1;
      assert last in rest <==> last in multiset(rest);
      if Distinct(rows) {
        assert last !in rest;
      } else if Distinct(rest) {
        var i, j :| 0 <= i < j < |rows| && rows[i] == rows[j];
        assert j == |rows| - 1;
        assert rest[i] == last;
      } else {
        var x :| x in rest && multiset(rest)[x] != 1;
        assert x in rows && multiset(rows)[x] >= multiset(rest)[x] >= 1;
      }
    }
  }

  lemma DistinctAnswer<T>(selected: seq<T>, rows: seq<T>)
    requires Distinct(selected) && multiset(rows) == multiset(selected)
    ensures Distinct(rows)
  {
    CountOnce(selected);
    CountOnce(rows);
    forall x | x in rows ensures multiset(rows)[x] == 1 {
      assert x in multiset(selected);
    }
  }

  lemma {:induction false} FlattenOnes<T>(pages: seq<seq<T>>)
    requires forall p <- pages :: |p| == 1
    ensures |Flatten(pages)| == |pages| && forall k :: 0 <= k < |pages| ==> Flatten(pages)[k] == pages[k][0]
  {
    if pages != [] {
      FlattenOnes(pages[..|pages| - 1]);
    }
  }
}
