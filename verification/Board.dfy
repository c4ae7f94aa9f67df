/** What can be worked on next: every unfinished ticket in one group, and why a board can be stuck. */
module Board {
  import opened Domain
  import opened Tickets

  datatype Group = ReadyToRefine | ReadyToStart | InProgress | Blocked

  datatype Groups = Groups(readyToRefine: seq<Ticket>, readyToStart: seq<Ticket>, inProgress: seq<Ticket>, blocked: seq<Ticket>)
  {
    function Of(group: Group): seq<Ticket> {
      match group
      case ReadyToRefine => readyToRefine
      case ReadyToStart => readyToStart
      case InProgress => inProgress
      case Blocked => blocked
    }

    function Add(group: Group, t: Ticket): Groups {
      match group
      case ReadyToRefine => this.(readyToRefine := readyToRefine + [t])
      case ReadyToStart => this.(readyToStart := readyToStart + [t])
      case InProgress => this.(inProgress := inProgress + [t])
      case Blocked => this.(blocked := blocked + [t])
    }
  }

  /** A key is done as a ticket, or as an epic whose container says so. */
  predicate IsDone(tickets: seq<Ticket>, doneEpics: set<string>, key: string) {
    key in doneEpics || exists t <- tickets :: t.key == key && t.state == "done"
  }

  predicate IsMet(tickets: seq<Ticket>, doneEpics: set<string>, key: string) {
    IsDone(tickets, doneEpics, key) || exists t <- tickets :: t.key == key && t.state == "review"
  }

  predicate Waits(tickets: seq<Ticket>, doneEpics: set<string>, t: Ticket) {
    || (exists b <- t.after :: !IsMet(tickets, doneEpics, b))
    || (exists b <- t.gatedBy :: !IsDone(tickets, doneEpics, b))
  }

  function GroupOf(tickets: seq<Ticket>, doneEpics: set<string>, t: Ticket): Group {
    if t.markedBlocked then Blocked
    else if t.state == "in-progress" || t.state == "review" then InProgress
    else if Waits(tickets, doneEpics, t) then Blocked
    else if t.refine && !t.refined then ReadyToRefine
    else ReadyToStart
  }

  /** The unfinished tickets in scope that belong to one group, in tree order. */
  function Members(tickets: seq<Ticket>, doneEpics: set<string>, scope: Option<string>, group: Group, n: nat): seq<Ticket>
    requires n <= |tickets|
  {
    if n == 0 then []
    else
      var t := tickets[n - 1];
      Members(tickets, doneEpics, scope, group, n - 1) +
      if InScope(scope, t) && Unfinished(t) && GroupOf(tickets, doneEpics, t) == group then [t] else []
  }

  method Classify(tickets: seq<Ticket>, doneEpics: set<string>, scope: Option<string>) returns (groups: Groups)
    ensures forall group :: groups.Of(group) == Members(tickets, doneEpics, scope, group, |tickets|)
  {
    hide Waits, Members, Unfinished, Groups.Of, InScope;
    groups := Groups([], [], [], []);
    StartEmpty(tickets, doneEpics, scope);
    for i := 0 to |tickets|
      invariant forall group :: groups.Of(group) == Members(tickets, doneEpics, scope, group, i)
    {
      var t := tickets[i];
      ghost var before := groups;
      if InScope(scope, t) && t.state != "done" && t.state != "dropped" {
        if t.markedBlocked {
          groups := groups.(blocked := groups.blocked + [t]);
        } else if t.state == "in-progress" || t.state == "review" {
          groups := groups.(inProgress := groups.inProgress + [t]);
        } else if Waits(tickets, doneEpics, t) {
          groups := groups.(blocked := groups.blocked + [t]);
        } else if t.refine && !t.refined {
          groups := groups.(readyToRefine := groups.readyToRefine + [t]);
        } else {
          groups := groups.(readyToStart := groups.readyToStart + [t]);
        }
        assert groups == before.Add(GroupOf(tickets, doneEpics, t), t);
      }
      AddKeeps(tickets, doneEpics, scope, before, i);
    }
  }

  lemma StartEmpty(tickets: seq<Ticket>, doneEpics: set<string>, scope: Option<string>)
    ensures forall group :: Groups([], [], [], []).Of(group) == Members(tickets, doneEpics, scope, group, 0)
  {
  }

  lemma AddKeeps(tickets: seq<Ticket>, doneEpics: set<string>, scope: Option<string>, groups: Groups, i: nat)
    requires i < |tickets|
    requires forall group :: groups.Of(group) == Members(tickets, doneEpics, scope, group, i)
    ensures var t := tickets[i];
            var next := if InScope(scope, t) && t.state != "done" && t.state != "dropped"
                        then groups.Add(GroupOf(tickets, doneEpics, t), t) else groups;
            forall group :: next.Of(group) == Members(tickets, doneEpics, scope, group, i + 1)
  {
    hide GroupOf;
  }

  lemma {:induction false} MembersHold(tickets: seq<Ticket>, doneEpics: set<string>, scope: Option<string>, group: Group, n: nat, t: Ticket)
    requires n <= |tickets|
    ensures t in Members(tickets, doneEpics, scope, group, n) <==>
            t in tickets[..n] && InScope(scope, t) && Unfinished(t) && GroupOf(tickets, doneEpics, t) == group
  {
    hide GroupOf;
    if n > 0 {
      MembersHold(tickets, doneEpics, scope, group, n - 1, t);
      assert tickets[..n] == tickets[..n - 1] + [tickets[n - 1]];
    }
  }

  /** Each unfinished ticket in scope is in exactly one group, and no other ticket is in any. */
  lemma OneGroupEach(tickets: seq<Ticket>, doneEpics: set<string>, scope: Option<string>, t: Ticket)
    ensures (t in tickets && InScope(scope, t) && Unfinished(t)) <==>
            exists group :: t in Members(tickets, doneEpics, scope, group, |tickets|)
    ensures forall g, h :: t in Members(tickets, doneEpics, scope, g, |tickets|) && t in Members(tickets, doneEpics, scope, h, |tickets|) ==> g == h
  {
    hide Members, GroupOf;
    assert tickets[..|tickets|] == tickets;
    forall group ensures t in Members(tickets, doneEpics, scope, group, |tickets|) <==>
                         t in tickets && InScope(scope, t) && Unfinished(t) && GroupOf(tickets, doneEpics, t) == group {
      MembersHold(tickets, doneEpics, scope, group, |tickets|, t);
    }
    var own := GroupOf(tickets, doneEpics, t);
    assert t in Members(tickets, doneEpics, scope, own, |tickets|) <==> t in tickets && InScope(scope, t) && Unfinished(t);
  }

  /** A prerequisite is met by a ticket done or in review, or by an epic marked done. */
  ghost predicate Met(tickets: seq<Ticket>, doneEpics: set<string>, key: string) {
    key in doneEpics || exists k :: 0 <= k < |tickets| && tickets[k].key == key && tickets[k].state in {"done", "review"}
  }

  /** A gate is passed only by what is done. */
  ghost predicate Passed(tickets: seq<Ticket>, doneEpics: set<string>, key: string) {
    key in doneEpics || exists k :: 0 <= k < |tickets| && tickets[k].key == key && tickets[k].state == "done"
  }

  /** Nothing stands before the ticket and nobody is at it. */
  ghost predicate Free(tickets: seq<Ticket>, doneEpics: set<string>, t: Ticket) {
    && !t.markedBlocked && t.state !in {"done", "dropped", "in-progress", "review"}
    && (forall b :: b in t.after ==> Met(tickets, doneEpics, b))
    && (forall b :: b in t.gatedBy ==> Passed(tickets, doneEpics, b))
  }

  /** Each group exactly, in the tickets' own fields. */
  lemma GroupsMean(tickets: seq<Ticket>, doneEpics: set<string>, scope: Option<string>, t: Ticket)
    requires t in tickets && (scope.Some? ==> t.epic == scope.value)
    ensures var n := |tickets|;
            && (t in Members(tickets, doneEpics, scope, ReadyToStart, n) <==> Free(tickets, doneEpics, t) && (t.refine ==> t.refined))
            && (t in Members(tickets, doneEpics, scope, ReadyToRefine, n) <==> Free(tickets, doneEpics, t) && t.refine && !t.refined)
            && (t in Members(tickets, doneEpics, scope, InProgress, n) <==> !t.markedBlocked && t.state in {"in-progress", "review"})
            && (t in Members(tickets, doneEpics, scope, Blocked, n) <==>
                && t.state !in {"done", "dropped"}
                && (t.markedBlocked || (t.state !in {"in-progress", "review"} && !Free(tickets, doneEpics, t))))
  {
    hide Members, IsMet, IsDone;
    assert tickets[..|tickets|] == tickets;
    forall group ensures t in Members(tickets, doneEpics, scope, group, |tickets|) <==>
                         t in tickets && InScope(scope, t) && Unfinished(t) && GroupOf(tickets, doneEpics, t) == group {
      MembersHold(tickets, doneEpics, scope, group, |tickets|, t);
    }
    forall b ensures (IsMet(tickets, doneEpics, b) <==> Met(tickets, doneEpics, b)) && (IsDone(tickets, doneEpics, b) <==> Passed(tickets, doneEpics, b)) {
      MetIff(tickets, doneEpics, b);
    }
  }

  lemma MetIff(tickets: seq<Ticket>, doneEpics: set<string>, b: string)
    ensures IsMet(tickets, doneEpics, b) <==> Met(tickets, doneEpics, b)
    ensures IsDone(tickets, doneEpics, b) <==> Passed(tickets, doneEpics, b)
  {
    if k :| 0 <= k < |tickets| && tickets[k].key == b && tickets[k].state in {"done", "review"} {
      assert tickets[k] in tickets;
    }
    if k :| 0 <= k < |tickets| && tickets[k].key == b && tickets[k].state == "done" {
      assert tickets[k] in tickets;
    }
  }

  // ---------------------------------------------------------------- a stuck board

  /** Loading resolves every reference to a ticket or to an epic with a container. */
  predicate Resolved(tickets: seq<Ticket>, containers: map<string, seq<string>>) {
    forall t <- tickets :: forall b <- t.after + t.gatedBy :: b in GraphOf(tickets) || b in containers
  }

  /** An epic that is not marked done although none of its tickets is left to do. */
  predicate LeftOpen(tickets: seq<Ticket>, containers: map<string, seq<string>>, doneEpics: set<string>, epic: string) {
    epic in containers && epic !in doneEpics && forall t <- tickets :: t.epic == epic ==> !Unfinished(t)
  }

  predicate Dropped(tickets: seq<Ticket>, key: string) {
    exists t <- tickets :: t.key == key && t.state == "dropped"
  }

  /** Nothing but a decision can release the ticket. */
  ghost predicate NeedsDecision(tickets: seq<Ticket>, containers: map<string, seq<string>>, doneEpics: set<string>, t: Ticket) {
    || t.markedBlocked
    || exists b <- t.after + t.gatedBy :: Dropped(tickets, b) || LeftOpen(tickets, containers, doneEpics, b)
  }

  ghost predicate UnfinishedKey(tickets: seq<Ticket>, key: string) {
    exists t <- tickets :: t.key == key && Unfinished(t)
  }

  lemma {:induction false} FirstUnfinished(tickets: seq<Ticket>, order: seq<string>, k: nat) returns (i: nat)
    requires k < |order| && UnfinishedKey(tickets, order[k])
    ensures i <= k && UnfinishedKey(tickets, order[i]) && forall j :: 0 <= j < i ==> !UnfinishedKey(tickets, order[j])
  {
    hide UnfinishedKey;
    i := k;
    if j :| 0 <= j < k && UnfinishedKey(tickets, order[j]) {
      i := FirstUnfinished(tickets, order, j);
    }
  }

  /**
   * On a tree that passed the cycle check, a board with unfinished work and nothing ready or under way is
   * waiting for a decision: some ticket is marked blocked, or follows a dropped ticket, or follows an epic
   * whose tickets are all finished but which is not marked done.
   */
  lemma StuckOnADecision(
    tickets: seq<Ticket>, containers: map<string, seq<string>>, doneEpics: set<string>, order: seq<string>, some: Ticket)
    returns (t: Ticket)
    requires DistinctKeys(tickets) && Resolved(tickets, containers)
    requires Topological(DepsOf(tickets, containers), order) && forall key <- Keys(tickets) :: key in order
    requires some in tickets && Unfinished(some)
    requires forall x <- tickets :: Unfinished(x) ==> GroupOf(tickets, doneEpics, x) == Blocked
    ensures t in tickets && Unfinished(t) && NeedsDecision(tickets, containers, doneEpics, t)
  {
    var n :| 0 <= n < |tickets| && tickets[n] == some;
    assert Keys(tickets)[n] == some.key;
    assert some.key in Keys(tickets);
    var k :| 0 <= k < |order| && order[k] == some.key;
    assert UnfinishedKey(tickets, order[k]);
    var i := FirstUnfinished(tickets, order, k);
    t :| t in tickets && t.key == order[i] && Unfinished(t);
    if !t.markedBlocked {
      assert Waits(tickets, doneEpics, t);
      var b :| b in t.after + t.gatedBy && !IsDone(tickets, doneEpics, b);
      EarlierNeedsDecision(tickets, containers, doneEpics, order, i, t, b);
    }
  }

  lemma EarlierNeedsDecision(
    tickets: seq<Ticket>, containers: map<string, seq<string>>, doneEpics: set<string>, order: seq<string>, i: nat, t: Ticket, b: string)
    requires DistinctKeys(tickets) && Resolved(tickets, containers)
    requires Topological(DepsOf(tickets, containers), order)
    requires i < |order| && t in tickets && t.key == order[i]
    requires forall j :: 0 <= j < i ==> !UnfinishedKey(tickets, order[j])
    requires b in t.after + t.gatedBy && !IsDone(tickets, doneEpics, b)
    ensures Dropped(tickets, b) || LeftOpen(tickets, containers, doneEpics, b)
  {
    var g := DepsOf(tickets, containers);
    var n :| 0 <= n < |tickets| && tickets[n] == t;
    GraphHolds(tickets, n);
    assert b in g.Next(order[i]);
    var j :| 0 <= j < i && order[j] == b;
    if b in GraphOf(tickets) {
      GraphKeys(tickets, b);
      var m :| 0 <= m < |tickets| && tickets[m].key == b;
      assert tickets[m] in tickets;
    } else {
      forall x <- tickets | x.epic == b ensures !Unfinished(x) {
        var m :| 0 <= m < |tickets| && tickets[m] == x;
        EpicKeysHold(tickets, b, x.key);
        assert x.key in g.Next(b);
      }
    }
  }
}
