/**
 The soft-delete middleware as a rewriter of queries.

 A table with tombstones, queried through the middleware, shows the same rows as a table that
 deletes physically and is queried without it.  What the writers answer can differ, and exactly
 when is stated too.
 */
module SoftDelete {
  import opened Wrappers

  type Id = nat

  datatype Row<F> = Row(fields: F, deletedAt: Option<int>)

  type Table<F> = map<Id, Row<F>>

  /** A where clause: its own top-level condition on deletedAt, if any, and the rest of it. */
  datatype DeletedCondition = Unset | IsNull | Given(test: Option<int> -> bool)

  datatype Where<!F> = Where(deletedAt: DeletedCondition, rest: (Id, F) -> bool)

  datatype Data<!F> = NoData | NewRow(id: Id, fields: F) | Change(change: F -> F) | SetDeletedAt(at: int)

  datatype Args<!F> = Args(where: Option<Where<F>>, data: Data<F>)

  datatype Action =
    | FindFirst | FindMany | FindUnique | FindUniqueOrThrow | FindFirstOrThrow | Count
    | Create | Update | UpdateMany | Delete | DeleteMany | OtherAction

  datatype Query<!F> = Query(model: Option<string>, action: Action, args: Option<Args<F>>)

  const SOFT_DELETE_MODELS: set<string> := {"User", "UserSession"}

  predicate IsRead(a: Action) {
    a in {FindFirst, FindMany, FindUnique, FindUniqueOrThrow, FindFirstOrThrow, Count}
  }

  // ----- running a query -----

  function Anything<F>(): (Id, F) -> bool {
    (id, f) => true
  }

  function WhereOf<F>(q: Query<F>): Where<F> {
    if q.args.Some? && q.args.value.where.Some? then q.args.value.where.value else Where(Unset, Anything())
  }

  predicate Admits(c: DeletedCondition, deletedAt: Option<int>) {
    match c
    case Unset => true
    case IsNull => deletedAt.None?
    case Given(test) => test(deletedAt)
  }

  function Matching<F>(t: Table<F>, w: Where<F>): set<Id> {
    set id | id in t && Admits(w.deletedAt, t[id].deletedAt) && w.rest(id, t[id].fields)
  }

  function Changed<F>(row: Row<F>, data: Data<F>): Row<F> {
    match data
    case Change(change) => row.(fields := change(row.fields))
    case SetDeletedAt(at) => row.(deletedAt := Some(at))
    case _ => row
  }

  function WriteAll<F>(t: Table<F>, ids: set<Id>, data: Data<F>): Table<F> {
    map id | id in t :: if id in ids then Changed(t[id], data) else t[id]
  }

  /** Rows is everything a read can depend on: which rows match.  NotFound is thrown. */
  datatype Answer<F> = Rows(rows: map<Id, Row<F>>) | Affected(count: nat) | One | NotFound | Unmodelled

  function Run<F>(t: Table<F>, q: Query<F>): (Table<F>, Answer<F>) {
    var ids := Matching(t, WhereOf(q));
    var data := if q.args.Some? then q.args.value.data else NoData;
    match q.action
    case Create => (if data.NewRow? then t[data.id := Row(data.fields, None)] else t, One)
    case Update => if ids == {} then (t, NotFound) else (WriteAll(t, ids, data), One)
    case UpdateMany => (WriteAll(t, ids, data), Affected(|ids|))
    case Delete => if ids == {} then (t, NotFound) else (t - ids, One)
    case DeleteMany => (t - ids, Affected(|ids|))
    case OtherAction => (t, Unmodelled)
    case _ => (t, Rows(map id | id in ids :: t[id]))
  }

  // ----- the middleware -----

  predicate IsSoftDeleteModel(model: Option<string>) {
    model.Some? && model.value in SOFT_DELETE_MODELS
  }

  /** What reaches the database; None where reading `params.args` of a delete without arguments throws. */
  function Rewrite<F>(q: Query<F>, now: int): Option<Query<F>> {
    if !IsSoftDeleteModel(q.model) then Some(q)
    else if IsRead(q.action) then
      var args := if q.args.Some? then q.args.value else Args(None, NoData);
      var w := if args.where.Some? then args.where.value else Where(Unset, Anything());
      Some(q.(args := Some(args.(where := Some(if w.deletedAt.Unset? then w.(deletedAt := IsNull) else w)))))
    else if q.action.Delete? then
      if q.args.None? then None
      else Some(q.(action := Update, args := Some(q.args.value.(data := SetDeletedAt(now)))))
    else if q.action.DeleteMany? then
      var args := if q.args.Some? then q.args.value else Args(None, NoData);
      Some(q.(action := UpdateMany, args := Some(args.(data := SetDeletedAt(now)))))
    else Some(q)
  }

  /** params, which the middleware changes in place before it passes it on. */
  class MiddlewareParams<F> {
    var model: Option<string>
    var action: Action
    var args: Option<Args<F>>

    constructor (q: Query<F>)
      ensures View() == q
    {
      model, action, args := q.model, q.action, q.args;
    }

    function View(): Query<F>
      reads this
    {
      Query(model, action, args)
    }

    method ApplySoftDelete(now: int) returns (ok: bool)
      modifies this
      ensures ok <==> Rewrite(old(View()), now).Some?
      ensures ok ==> Some(View()) == Rewrite(old(View()), now)
    {
      if !IsSoftDeleteModel(model) {
        return true;
      }
      if IsRead(action) {
        if args.None? {
          args := Some(Args(None, NoData));
        }
        if args.value.where.None? {
          args := Some(args.value.(where := Some(Where(Unset, Anything()))));
        }
        var w := args.value.where.value;
        if w.deletedAt.Unset? {
          args := Some(args.value.(where := Some(w.(deletedAt := IsNull))));
        }
      }
      if action.Delete? {
        action := Update;
        if args.None? {
          return false;
        }
        args := Some(args.value.(data := SetDeletedAt(now)));
      }
      if action.DeleteMany? {
        action := UpdateMany;
        if args.None? {
          args := Some(Args(None, NoData));
        }
        args := Some(args.value.(data := SetDeletedAt(now)));
      }
      return true;
    }
  }

  // ----- each rewritten query, spelled out -----

  function RunSoft<F>(t: Table<F>, q: Query<F>, now: int): (Table<F>, Answer<F>)
    requires Rewrite(q, now).Some?
  {
    Run(t, Rewrite(q, now).value)
  }

  predicate IsSoftRead<F>(q: Query<F>) {
    && (q.model == Some("User") || q.model == Some("UserSession"))
    && (|| q.action == FindFirst || q.action == FindMany || q.action == FindUnique
        || q.action == FindUniqueOrThrow || q.action == FindFirstOrThrow || q.action == Count)
  }

  /** A read without a condition of its own on deletedAt, with or without a where clause: live rows only. */
  lemma ReadSeesLiveRows<F>(t: Table<F>, q: Query<F>, now: int, rest: (Id, F) -> bool)
    requires IsSoftRead(q)
    requires || q.args.None? || q.args.value.where.None?
             || q.args.value.where == Some(Where(Unset, rest)) || q.args.value.where == Some(Where(IsNull, rest))
    ensures Rewrite(q, now).Some?
    ensures var all := q.args.None? || q.args.value.where.None?;
      RunSoft(t, q, now) ==
        (t, Rows(map id | id in t && t[id].deletedAt == None && (all || rest(id, t[id].fields)) :: t[id]))
  {
    var all := q.args.None? || q.args.value.where.None?;
    assert RunSoft(t, q, now).1.rows
      == map id | id in t && t[id].deletedAt == None && (all || rest(id, t[id].fields)) :: t[id];
  }

  /** A read with its own condition on deletedAt keeps it: that is how deleted rows are found. */
  lemma ReadKeepsOwnCondition<F>(t: Table<F>, q: Query<F>, now: int, test: Option<int> -> bool, rest: (Id, F) -> bool)
    requires IsSoftRead(q) && q.args.Some? && q.args.value.where == Some(Where(Given(test), rest))
    ensures Rewrite(q, now) == Some(q)
    ensures RunSoft(t, q, now) ==
      (t, Rows(map id | id in t && test(t[id].deletedAt) && rest(id, t[id].fields) :: t[id]))
  {
    assert RunSoft(t, q, now).1.rows
      == map id | id in t && test(t[id].deletedAt) && rest(id, t[id].fields) :: t[id];
  }

  /** What a delete or a bulk delete leaves: the rows it matches bear the present instant. */
  function StampedRows<F>(t: Table<F>, c: DeletedCondition, rest: (Id, F) -> bool, now: int): Table<F> {
    map id | id in t ::
      if (match c case Unset => true case IsNull => t[id].deletedAt == None case Given(test) => test(t[id].deletedAt))
         && rest(id, t[id].fields)
      then Row(t[id].fields, Some(now)) else t[id]
  }

  /** A delete stamps what it matches, or finds nothing; without arguments it throws. */
  lemma DeleteStamps<F>(t: Table<F>, q: Query<F>, now: int, c: DeletedCondition, rest: (Id, F) -> bool)
    requires (q.model == Some("User") || q.model == Some("UserSession")) && q.action == Delete
    ensures q.args.None? ==> Rewrite(q, now).None?
    ensures q.args.Some? ==> Rewrite(q, now).Some?
    ensures q.args.Some? && q.args.value.where == Some(Where(c, rest)) ==>
      && RunSoft(t, q, now).0 == StampedRows(t, c, rest, now)
      && (RunSoft(t, q, now).1 == One || (RunSoft(t, q, now).1 == NotFound && StampedRows(t, c, rest, now) == t))
  {
    if q.args.Some? && q.args.value.where == Some(Where(c, rest)) && Matching(t, Where(c, rest)) == {} {
      forall id | id in t
        ensures StampedRows(t, c, rest, now)[id] == t[id]
      {
        assert id !in Matching(t, Where(c, rest));
      }
    }
  }

  /** A bulk delete stamps what it matches, everything if it has no where clause. */
  lemma DeleteManyStamps<F>(t: Table<F>, q: Query<F>, now: int, c: DeletedCondition, rest: (Id, F) -> bool)
    requires (q.model == Some("User") || q.model == Some("UserSession")) && q.action == DeleteMany
    ensures Rewrite(q, now).Some?
    ensures q.args.None? || q.args.value.where.None? ==>
      RunSoft(t, q, now).0 == map id | id in t :: Row(t[id].fields, Some(now))
    ensures q.args.Some? && q.args.value.where == Some(Where(c, rest)) ==>
      RunSoft(t, q, now).0 == StampedRows(t, c, rest, now)
  {
  }

  /** Queries on other models, and other actions on these two, go through as they are. */
  lemma OtherQueriesPass<F>(q: Query<F>, now: int)
    requires || (q.model != Some("User") && q.model != Some("UserSession"))
             || (!IsSoftRead(q) && q.action != Delete && q.action != DeleteMany)
    ensures Rewrite(q, now) == Some(q)
  {
  }

  // ----- simulation -----

  /** The rows a caller can see. */
  function Live<F>(t: Table<F>): Table<F> {
    map id | id in t && t[id].deletedAt.None? :: t[id]
  }

  /** Neither where clause nor data mentions deletedAt, and a created id is new. */
  ghost predicate Plain<F>(t: Table<F>, q: Query<F>) {
    && IsSoftDeleteModel(q.model)
    && !q.action.OtherAction?
    && (q.action.Delete? ==> q.args.Some?)
    && WhereOf(q).deletedAt.Unset?
    && (q.args.Some? ==> !q.args.value.data.SetDeletedAt?)
    && (q.action.Create? && q.args.Some? && q.args.value.data.NewRow? ==> q.args.value.data.id !in t)
  }

  lemma LiveMatching<F>(t: Table<F>, w: Where<F>)
    requires w.deletedAt.Unset?
    ensures Matching(Live(t), w) == Matching(t, w.(deletedAt := IsNull))
  {
  }

  lemma LiveWrite<F>(t: Table<F>, w: Where<F>, data: Data<F>)
    requires w.deletedAt.Unset? && !data.SetDeletedAt?
    ensures Live(WriteAll(t, Matching(t, w), data)) == WriteAll(Live(t), Matching(Live(t), w), data)
  {
  }

  lemma LiveStamp<F>(t: Table<F>, w: Where<F>, now: int)
    requires w.deletedAt.Unset?
    ensures Live(WriteAll(t, Matching(t, w), SetDeletedAt(now))) == Live(t) - Matching(Live(t), w)
  {
  }

  /** One query: same visible rows after it, same answer if it reads, and no row is ever lost. */
  lemma QuerySimulates<F>(t: Table<F>, q: Query<F>, now: int)
    requires Plain(t, q)
    ensures Rewrite(q, now).Some?
    ensures Live(RunSoft(t, q, now).0) == Run(Live(t), q).0
    ensures IsRead(q.action) ==> RunSoft(t, q, now).1 == Run(Live(t), q).1
    ensures t.Keys <= RunSoft(t, q, now).0.Keys
  {
    var w := WhereOf(q);
    LiveMatching(t, w);
    if q.action.Update? || q.action.UpdateMany? {
      var data := if q.args.Some? then q.args.value.data else NoData;
      LiveWrite(t, w, data);
      if Matching(t, w) == {} {
        assert WriteAll(t, {}, data) == t;
      }
      if Matching(Live(t), w) == {} {
        assert WriteAll(Live(t), {}, data) == Live(t);
      }
    } else if q.action.Delete? || q.action.DeleteMany? {
      LiveStamp(t, w, now);
      if Matching(t, w) == {} {
        assert Matching(Live(t), w) == {};
      }
    }
  }

  datatype Timed<!F> = Timed(q: Query<F>, now: int)

  /** Through the middleware, one query after another; the answers are those of the reads. */
  function SoftRun<F>(t: Table<F>, qs: seq<Timed<F>>): (Table<F>, seq<Answer<F>>)
    decreases |qs|
  {
    if qs == [] then (t, [])
    else
      var (t', answer) := if Rewrite(qs[0].q, qs[0].now).Some? then RunSoft(t, qs[0].q, qs[0].now) else (t, Unmodelled);
      var (t'', rest) := SoftRun(t', qs[1..]);
      (t'', if IsRead(qs[0].q.action) then [answer] + rest else rest)
  }

  /** Straight to a database that deletes. */
  function PhysicalRun<F>(t: Table<F>, qs: seq<Timed<F>>): (Table<F>, seq<Answer<F>>)
    decreases |qs|
  {
    if qs == [] then (t, [])
    else
      var (t', answer) := Run(t, qs[0].q);
      var (t'', rest) := PhysicalRun(t', qs[1..]);
      (t'', if IsRead(qs[0].q.action) then [answer] + rest else rest)
  }

  ghost predicate PlainRun<F>(t: Table<F>, qs: seq<Timed<F>>)
    decreases |qs|
  {
    qs == [] || (Plain(t, qs[0].q) && PlainRun(Run(t, Rewrite(qs[0].q, qs[0].now).value).0, qs[1..]))
  }

  /** Whole runs: every read answers the same, and in the end the same rows are visible. */
  lemma {:induction false} LiveViewSimulation<F>(t: Table<F>, qs: seq<Timed<F>>)
    requires PlainRun(t, qs)
    ensures Live(SoftRun(t, qs).0) == PhysicalRun(Live(t), qs).0
    ensures SoftRun(t, qs).1 == PhysicalRun(Live(t), qs).1
    ensures t.Keys <= SoftRun(t, qs).0.Keys
    decreases |qs|
  {
    if qs != [] {
      QuerySimulates(t, qs[0].q, qs[0].now);
      LiveViewSimulation(RunSoft(t, qs[0].q, qs[0].now).0, qs[1..]);
    }
  }

  // ----- where the two part -----

  function DeadMatching<F>(t: Table<F>, q: Query<F>): set<Id> {
    Matching(t, WhereOf(q)) - Matching(Live(t), WhereOf(q))
  }

  /** A single update or delete answers alike unless all it meets is a tombstone; a bulk one unless it meets any. */
  lemma AnswersAgree<F>(t: Table<F>, q: Query<F>, now: int)
    requires Plain(t, q) && (q.action.Update? || q.action.UpdateMany? || q.action.Delete? || q.action.DeleteMany?)
    ensures Rewrite(q, now).Some?
    ensures RunSoft(t, q, now).1 == Run(Live(t), q).1 <==>
      || DeadMatching(t, q) == {}
      || ((q.action.Update? || q.action.Delete?) && Matching(Live(t), WhereOf(q)) != {})
  {
    var all, live := Matching(t, WhereOf(q)), Matching(Live(t), WhereOf(q));
    assert all == live + DeadMatching(t, q);
  }

  /**
   A deleted row keeps its deletion time, and so its place in the retention period, in every query
   but a single or bulk delete that meets it at another instant: neither asks whether it is deleted.
   */
  lemma TombstoneKeepsItsTime<F>(t: Table<F>, q: Query<F>, now: int, id: Id)
    requires Plain(t, q) && id in t && t[id].deletedAt.Some?
    ensures Rewrite(q, now).Some? && id in RunSoft(t, q, now).0
    ensures RunSoft(t, q, now).0[id].deletedAt == t[id].deletedAt <==>
      || !(q.action.Delete? || q.action.DeleteMany?)
      || id !in DeadMatching(t, q)
      || t[id].deletedAt == Some(now)
  {
    QuerySimulates(t, q, now);
  }
}
