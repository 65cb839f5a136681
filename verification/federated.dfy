/** The federated-learning simulation: a single global model document with a round counter,
    an accuracy and a loss, a status, the participating hospitals and the history of past
    rounds. Hospitals register, a round starts, each hospital submits, and once every one has
    submitted the model aggregates: the round advances and accuracy and loss improve by a
    random amount within fixed bounds. */
module Federated {
  import opened Common

  datatype ModelStatus = Idle | Training | Aggregating
  datatype NodeStatus = NodeIdle | NodeTraining | NodeCompleted

  datatype Hospital = Hospital(id: string, name: string, status: NodeStatus, lastUpdate: Option<int>)
  datatype RoundRecord = RoundRecord(round: int, accuracy: real, loss: real)

  const InitialAccuracy: real := 0.72
  const InitialLoss: real := 0.45
  const MaxAccuracy: real := 0.98
  const MinLoss: real := 0.1
  /** A training or aggregating model untouched for longer than this is considered stuck. */
  const StuckTimeout: int := 60000

  /** The first hospital with this id. */
  function FindHospital(hs: seq<Hospital>, id: string): (r: Option<nat>)
    ensures r.Some? ==> r.value < |hs| && hs[r.value].id == id
                        && forall j :: 0 <= j < r.value ==> hs[j].id != id
    ensures r.None? ==> forall j :: 0 <= j < |hs| ==> hs[j].id != id
  {
    if hs == [] then None
    else if hs[0].id == id then Some(0)
    else match FindHospital(hs[1..], id)
      case None => None
      case Some(k) => Some(k + 1)
  }

  predicate UniqueIds(hs: seq<Hospital>) {
    forall i, j :: 0 <= i < j < |hs| ==> hs[i].id != hs[j].id
  }

  /** Registration appends a new idle hospital only when no hospital has the id yet. */
  function Registered(hs: seq<Hospital>, id: string, name: string): (r: seq<Hospital>)
    ensures FindHospital(hs, id).Some? ==> r == hs
    ensures FindHospital(hs, id).None? ==> r == hs + [Hospital(id, name, NodeIdle, None)]
    ensures UniqueIds(hs) ==> UniqueIds(r)
  {
    if FindHospital(hs, id).Some? then hs else hs + [Hospital(id, name, NodeIdle, None)]
  }

  /** Registering the same id again, under any name, changes nothing. */
  lemma RegisterIdempotent(hs: seq<Hospital>, id: string, name: string, name2: string)
    ensures Registered(Registered(hs, id, name), id, name2) == Registered(hs, id, name)
  {
    var r := Registered(hs, id, name);
    if FindHospital(hs, id).None? {
      assert r[|hs|].id == id;
    }
  }

  /** Every hospital put into status `s`, nothing else changed. */
  function WithStatus(hs: seq<Hospital>, s: NodeStatus): (r: seq<Hospital>)
    ensures |r| == |hs|
    ensures forall i :: 0 <= i < |hs| ==> r[i] == hs[i].(status := s)
  {
    seq(|hs|, i requires 0 <= i < |hs| => hs[i].(status := s))
  }

  /** The first hospital with the id is marked completed at `now`; an unknown id changes
      nothing. */
  function MarkCompleted(hs: seq<Hospital>, id: string, now: int): (r: seq<Hospital>)
    ensures |r| == |hs|
    ensures FindHospital(hs, id).None? ==> r == hs
    ensures FindHospital(hs, id).Some? ==>
              var k := FindHospital(hs, id).value;
              r == hs[k := hs[k].(status := NodeCompleted, lastUpdate := Some(now))]
  {
    match FindHospital(hs, id)
    case None => hs
    case Some(k) => hs[k := hs[k].(status := NodeCompleted, lastUpdate := Some(now))]
  }

  predicate AllCompleted(hs: seq<Hospital>) {
    forall i :: 0 <= i < |hs| ==> hs[i].status == NodeCompleted
  }

  /** Marking keeps ids, so unique ids stay unique; and the hospitals are all completed after
      a submission exactly when every hospital other than the submitter already was. */
  lemma MarkCompletedFacts(hs: seq<Hospital>, id: string, now: int)
    requires UniqueIds(hs)
    ensures UniqueIds(MarkCompleted(hs, id, now))
    ensures AllCompleted(MarkCompleted(hs, id, now)) <==>
              forall j :: 0 <= j < |hs| && hs[j].id != id ==> hs[j].status == NodeCompleted
  {
    var r := MarkCompleted(hs, id, now);
    assert forall j :: 0 <= j < |hs| ==> r[j].id == hs[j].id;
  }

  /** Once a round has started, the round is complete exactly when every registered hospital
      has submitted at least once. */
  lemma RoundCompletesWhenAllSubmit(hs: seq<Hospital>, ids: seq<string>, now: int)
    requires UniqueIds(hs)
    ensures AllCompleted(Submitted(WithStatus(hs, NodeTraining), ids, now)) <==>
              forall i :: 0 <= i < |hs| ==> hs[i].id in ids
  {
    SubmittedFacts(WithStatus(hs, NodeTraining), ids, now);
  }

  /** The hospitals after a sequence of submissions. */
  function Submitted(hs: seq<Hospital>, ids: seq<string>, now: int): (r: seq<Hospital>)
    ensures |r| == |hs|
    decreases |ids|
  {
    if ids == [] then hs else Submitted(MarkCompleted(hs, ids[0], now), ids[1..], now)
  }

  lemma {:induction false} SubmittedFacts(hs: seq<Hospital>, ids: seq<string>, now: int)
    requires UniqueIds(hs)
    decreases |ids|
    ensures var r := Submitted(hs, ids, now);
            forall i :: 0 <= i < |hs| ==>
              r[i].id == hs[i].id
              && (r[i].status == NodeCompleted <==> hs[i].status == NodeCompleted || hs[i].id in ids)
  {
    if ids != [] {
      var m := MarkCompleted(hs, ids[0], now);
      MarkCompletedFacts(hs, ids[0], now);
      SubmittedFacts(m, ids[1..], now);
      assert forall x :: x in ids <==> x == ids[0] || x in ids[1..];
    }
  }

  /** The accuracy after aggregation: raised by the improvement and capped at 0.98. */
  function NextAccuracy(acc: real, imp: real): (a: real)
    ensures a <= MaxAccuracy
    ensures a == acc + imp || a == MaxAccuracy
    ensures imp >= 0.0 && acc <= MaxAccuracy ==> a >= acc
  {
    Min(MaxAccuracy, acc + imp)
  }

  /** The loss after aggregation: lowered by 0.8 times the improvement, never below 0.1. */
  function NextLoss(loss: real, imp: real): (l: real)
    ensures l >= MinLoss
    ensures l == loss - imp * 0.8 || l == MinLoss
    ensures imp >= 0.0 && loss >= MinLoss ==> l <= loss
  {
    Max(MinLoss, loss - imp * 0.8)
  }

  /** Starting inside the bounds, one aggregation with an improvement in [0, 0.05) keeps
      accuracy in [0.72, 0.98] without lowering it and loss in [0.1, 0.45] without raising it. */
  lemma AggregationStaysInBounds(acc: real, loss: real, imp: real)
    requires InitialAccuracy <= acc <= MaxAccuracy && MinLoss <= loss <= InitialLoss
    requires 0.0 <= imp < 0.05
    ensures acc <= NextAccuracy(acc, imp) <= MaxAccuracy
    ensures MinLoss <= NextLoss(loss, imp) <= loss
  {
  }

  /** Rounds are numbered from 1 and the history holds every earlier round in order; accuracy
      and loss stay within their bounds and never got worse from one round to the next. */
  predicate HistoryValid(history: seq<RoundRecord>, round: int, accuracy: real, loss: real) {
    round >= 1 && |history| == round - 1
    && (forall i :: 0 <= i < |history| ==> history[i].round == i + 1)
    && InitialAccuracy <= accuracy <= MaxAccuracy && MinLoss <= loss <= InitialLoss
    && (forall i :: 0 <= i < |history| ==>
          InitialAccuracy <= history[i].accuracy <= accuracy && loss <= history[i].loss <= InitialLoss)
    && (forall i, j :: 0 <= i < j < |history| ==>
          history[i].accuracy <= history[j].accuracy && history[j].loss <= history[i].loss)
  }

  /** The fresh model's empty history is valid, and an aggregation keeps the history valid:
      the closed round is appended with the next number and accuracy and loss do not get
      worse. */
  lemma AggregationKeepsHistory(history: seq<RoundRecord>, round: int, accuracy: real, loss: real, imp: real)
    requires HistoryValid(history, round, accuracy, loss)
    requires 0.0 <= imp < 0.05
    ensures HistoryValid([], 1, InitialAccuracy, InitialLoss)
    ensures HistoryValid(history + [RoundRecord(round, accuracy, loss)], round + 1,
                         NextAccuracy(accuracy, imp), NextLoss(loss, imp))
  {
    AggregationStaysInBounds(accuracy, loss, imp);
    var h := history + [RoundRecord(round, accuracy, loss)];
    assert forall i :: 0 <= i < |history| ==> h[i] == history[i];
  }

  /** The single global model document; `present` is false once it has been deleted and
      before it is first created. */
  class FederatedModel {
    var present: bool
    var round: int
    var accuracy: real
    var loss: real
    var status: ModelStatus
    var hospitals: seq<Hospital>
    var history: seq<RoundRecord>
    /** The time of the last save that changed the document: a save that changes nothing
        leaves it as it was. */
    var updatedAt: int

    /** The history is valid and hospital ids are unique. */
    ghost predicate Valid()
      reads this
    {
      present ==> HistoryValid(history, round, accuracy, loss) && UniqueIds(hospitals)
    }

    /** An empty database. */
    constructor ()
      ensures !present && Valid()
    {
      present := false;
      round := 0;
      accuracy := 0.0;
      loss := 0.0;
      status := Idle;
      hospitals := [];
      history := [];
      updatedAt := 0;
    }

    /** Creates the document with its initial values when there is none. */
    method GetModelInstance(now: int)
      requires Valid()
      modifies this
      ensures Valid() && present
      ensures old(present) ==> unchanged(this)
      ensures !old(present) ==>
                round == 1 && accuracy == InitialAccuracy && loss == InitialLoss && status == Idle
                && hospitals == [] && history == [] && updatedAt == now
    {
      if !present {
        AggregationKeepsHistory([], 1, InitialAccuracy, InitialLoss, 0.0);
        present, round, accuracy, loss, status := true, 1, InitialAccuracy, InitialLoss, Idle;
        hospitals, history, updatedAt := [], [], now;
      }
    }

    /** Sets every hospital's status, one at a time. */
    method SetAllHospitals(s: NodeStatus)
      requires Valid()
      modifies this
      ensures Valid()
      ensures hospitals == WithStatus(old(hospitals), s)
      ensures present == old(present) && round == old(round) && accuracy == old(accuracy) && loss == old(loss)
      ensures status == old(status) && history == old(history) && updatedAt == old(updatedAt)
    {
      ghost var hs := hospitals;
      for i := 0 to |hospitals|
        invariant |hospitals| == |hs|
        invariant forall j :: 0 <= j < i ==> hospitals[j] == hs[j].(status := s)
        invariant forall j :: i <= j < |hs| ==> hospitals[j] == hs[j]
        invariant present == old(present) && round == old(round) && accuracy == old(accuracy)
        invariant loss == old(loss) && status == old(status) && history == old(history) && updatedAt == old(updatedAt)
        invariant old(present) ==> UniqueIds(hospitals)
      {
        hospitals := hospitals[i := hospitals[i].(status := s)];
      }
    }

    /** Reading the state recovers a model stuck in training or aggregating for more than a
        minute: it and every hospital go back to idle. */
    method GetGlobalState(now: int)
      requires Valid()
      modifies this
      ensures Valid() && present
      ensures var st := if old(present) then old(status) else Idle;
              var last := if old(present) then old(updatedAt) else now;
              var hs := if old(present) then old(hospitals) else [];
              if st != Idle && now - last > StuckTimeout then
                status == Idle && hospitals == WithStatus(hs, NodeIdle) && updatedAt == now
              else
                status == st && hospitals == hs && updatedAt == last
      ensures old(present) ==> round == old(round) && accuracy == old(accuracy) && loss == old(loss)
                               && history == old(history)
    {
      GetModelInstance(now);
      if (status == Aggregating || status == Training) && now - updatedAt > StuckTimeout {
        status := Idle;
        SetAllHospitals(NodeIdle);
        updatedAt := now;
      }
    }

    method RegisterNode(id: string, name: string, now: int)
      requires Valid()
      modifies this
      ensures Valid() && present
      ensures var hs := if old(present) then old(hospitals) else [];
              hospitals == Registered(hs, id, name)
      ensures var hs := if old(present) then old(hospitals) else [];
              var last := if old(present) then old(updatedAt) else now;
              updatedAt == (if hospitals != hs then now else last)
      ensures old(present) ==> round == old(round) && accuracy == old(accuracy) && loss == old(loss)
                               && status == old(status) && history == old(history)
    {
      GetModelInstance(now);
      if FindHospital(hospitals, id).None? {
        hospitals := hospitals + [Hospital(id, name, NodeIdle, None)];
        updatedAt := now;
      }
    }

    method StartRound(now: int)
      requires Valid()
      modifies this
      ensures Valid() && present
      ensures status == Training
      ensures var hs := if old(present) then old(hospitals) else [];
              hospitals == WithStatus(hs, NodeTraining)
      ensures var hs := if old(present) then old(hospitals) else [];
              var st := if old(present) then old(status) else Idle;
              var last := if old(present) then old(updatedAt) else now;
              updatedAt == (if st != Training || hospitals != hs then now else last)
      ensures old(present) ==> round == old(round) && accuracy == old(accuracy) && loss == old(loss)
                               && history == old(history)
    {
      GetModelInstance(now);
      var st, hs := status, hospitals;
      status := Training;
      SetAllHospitals(NodeTraining);
      if st != Training || hospitals != hs {
        updatedAt := now;
      }
    }

    /** Marks the submitting hospital completed; once every hospital is completed the model
        turns to aggregating (the caller then runs `AggregateWeights`). */
    method SubmitUpdate(id: string, now: int)
      requires Valid()
      modifies this
      ensures Valid() && present
      ensures var hs := if old(present) then old(hospitals) else [];
              hospitals == MarkCompleted(hs, id, now)
      ensures var st := if old(present) then old(status) else Idle;
              status == (if AllCompleted(hospitals) then Aggregating else st)
      ensures var hs := if old(present) then old(hospitals) else [];
              var st := if old(present) then old(status) else Idle;
              var last := if old(present) then old(updatedAt) else now;
              updatedAt == (if status != st || hospitals != hs then now else last)
      ensures old(present) ==> round == old(round) && accuracy == old(accuracy) && loss == old(loss)
                               && history == old(history)
    {
      GetModelInstance(now);
      var st, hs := status, hospitals;
      MarkCompletedFacts(hospitals, id, now);
      hospitals := MarkCompleted(hospitals, id, now);
      if AllCompleted(hospitals) {
        status := Aggregating;
      }
      if status != st || hospitals != hs {
        updatedAt := now;
      }
    }

    /** Closes the round: records it in the history, advances the round and improves accuracy
        and loss by the draw `imp` from [0, 0.05); the model and every hospital become idle. */
    method AggregateWeights(imp: real, now: int)
      requires Valid()
      requires 0.0 <= imp < 0.05
      modifies this
      ensures Valid() && present
      ensures var r := if old(present) then old(round) else 1;
              var a := if old(present) then old(accuracy) else InitialAccuracy;
              var l := if old(present) then old(loss) else InitialLoss;
              var h := if old(present) then old(history) else [];
              history == h + [RoundRecord(r, a, l)] && round == r + 1
              && accuracy == NextAccuracy(a, imp) && loss == NextLoss(l, imp)
      ensures status == Idle && updatedAt == now
      ensures var hs := if old(present) then old(hospitals) else [];
              hospitals == WithStatus(hs, NodeIdle)
    {
      GetModelInstance(now);
      AggregationKeepsHistory(history, round, accuracy, loss, imp);
      var newAccuracy := NextAccuracy(accuracy, imp);
      var newLoss := NextLoss(loss, imp);
      history := history + [RoundRecord(round, accuracy, loss)];
      round := round + 1;
      accuracy := newAccuracy;
      loss := newLoss;
      status := Idle;
      SetAllHospitals(NodeIdle);
      updatedAt := now;
    }

    /** Deletes the document and creates a fresh one. */
    method ResetSimulation(now: int)
      requires Valid()
      modifies this
      ensures Valid() && present
      ensures round == 1 && accuracy == InitialAccuracy && loss == InitialLoss && status == Idle
      ensures hospitals == [] && history == [] && updatedAt == now
    {
      present := false;
      GetModelInstance(now);
    }
  }
}
