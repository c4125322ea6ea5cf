// Code decides, the model only writes: two syncs of the same tables that differ
// in everything about the model make the same decisions.
module Independence {
  import opened Prelude
  import opened Mail
  import opened Pipeline
  import opened IsoTime
  import opened Tables
  import opened Sync

  /** A row without its words. */
  function Sketch(row: ActionRow): ActionRow { row.(content := None, prose := NO_PROSE) }

  predicate SameRows(a: seq<ActionRow>, b: seq<ActionRow>) {
    |a| == |b| && forall i :: 0 <= i < |a| ==> Sketch(a[i]) == Sketch(b[i])
  }

  /** Equal tables up to the words on actions; in particular the same writes were made. */
  predicate SameDecisions(a: Store, b: Store) {
    a.(actions := []) == b.(actions := []) && SameRows(a.actions, b.actions)
  }

  predicate SameProgress(a: Progress, b: Progress) {
    && SameDecisions(a.store, b.store)
    && a.groups == b.groups && a.proposed == b.proposed && a.skipped == b.skipped && a.downgraded == b.downgraded
  }

  /** Settings that differ only in the model and its examples. */
  ghost predicate SameSetting(a: Setting, b: Setting) {
    a.inp == b.inp && a.emails == b.emails && a.ids == b.ids && a.vetoes == b.vetoes
  }

  lemma SameActive(a: seq<ActionRow>, b: seq<ActionRow>, m: nat, t: ActionType)
    requires SameRows(a, b)
    ensures Active(a, m, t) <==> Active(b, m, t)
  {
    assert forall i :: 0 <= i < |a| ==> Sketch(a[i]) == Sketch(b[i]);
    if i :| 0 <= i < |a| && Live(a[i]) && Matches(a[i], m, t) {
      assert Live(b[i]) && Matches(b[i], m, t);
    }
    if i :| 0 <= i < |b| && Live(b[i]) && Matches(b[i], m, t) {
      assert Sketch(a[i]) == Sketch(b[i]);
      assert Live(a[i]) && Matches(a[i], m, t);
    }
  }

  lemma AppendAlike(a: seq<ActionRow>, b: seq<ActionRow>, x: ActionRow, y: ActionRow)
    requires SameRows(a, b) && Sketch(x) == Sketch(y)
    ensures SameRows(a + [x], b + [y])
  {
  }

  lemma HoldAlike(a: Progress, b: Progress, s: Setting, t: Setting, p: Proposal, messageId: nat)
    requires SameProgress(a, b)
    ensures SameProgress(Hold(a, s, p, messageId), Hold(b, t, p, messageId))
  {
    var x, y := Hold(a, s, p, messageId).store.actions, Hold(b, t, p, messageId).store.actions;
    AppendAlike(a.store.actions, b.store.actions, x[|x| - 1], y[|y| - 1]);
  }

  lemma DowngradeAlike(a: Store, b: Store, s: Setting, t: Setting, p: Proposal, messageId: nat)
    requires SameDecisions(a, b) && SameSetting(s, t)
    ensures SameDecisions(Downgrade(a, s, p, messageId), Downgrade(b, t, p, messageId))
  {
    var x, y := Downgrade(a, s, p, messageId).actions, Downgrade(b, t, p, messageId).actions;
    AppendAlike(a.actions, b.actions, x[|x| - 1], y[|y| - 1]);
  }

  lemma ProposeAlike(a: Progress, b: Progress, s: Setting, t: Setting, p: Proposal)
    requires SameProgress(a, b) && SameSetting(s, t)
    ensures SameProgress(Propose(a, s, p), Propose(b, t, p))
  {
    if p.emailId in s.ids {
      var messageId := s.ids[p.emailId];
      SameActive(a.store.actions, b.store.actions, messageId, p.kind);
      SameActive(a.store.actions, b.store.actions, messageId, Defer);
      HoldAlike(a, b, s, t, p, messageId);
      DowngradeAlike(a.store, b.store, s, t, p, messageId);
    }
  }

  lemma {:induction false} ProposeAllAlike(a: Progress, b: Progress, s: Setting, t: Setting, ps: seq<Proposal>)
    requires SameProgress(a, b) && SameSetting(s, t)
    ensures SameProgress(ProposeAll(a, s, ps), ProposeAll(b, t, ps))
  {
    if ps != [] {
      var n := |ps| - 1;
      ProposeAllAlike(a, b, s, t, ps[..n]);
      ProposeAlike(ProposeAll(a, s, ps[..n]), ProposeAll(b, t, ps[..n]), s, t, ps[n]);
    }
  }

  lemma {:induction false} CreateAutoAlike(
      a: seq<ActionRow>, b: seq<ActionRow>, items: seq<Item>, results: seq<WriteResult>, name: string, now: int)
    requires SameRows(a, b) && |items| == |results|
    ensures SameRows(CreateAuto(a, items, results, name, now), CreateAuto(b, items, results, name, now))
  {
    if items != [] {
      var n := |items| - 1;
      CreateAutoAlike(a, b, items[..n], results[..n], name, now);
    }
  }

  lemma {:induction false} ApplyGroupsAlike(a: Store, b: Store, inp: SyncInput, groups: seq<Group>)
    requires SameDecisions(a, b)
    ensures SameDecisions(ApplyGroups(a, inp, groups), ApplyGroups(b, inp, groups))
  {
    if groups != [] {
      var n := |groups| - 1;
      ApplyGroupsAlike(a, b, inp, groups[..n]);
      var x, y := ApplyGroups(a, inp, groups[..n]), ApplyGroups(b, inp, groups[..n]);
      var (results, _) := LabelGroup(x.writes, inp, groups[n]);
      CreateAutoAlike(x.actions, y.actions, groups[n].items, results, groups[n].name, inp.now);
    }
  }

  /**
   * Two-run independence. Whatever the model is, whether it may be called, what
   * it answers, what it costs, what is cached or left in the budget: the sync
   * reports the same counts, makes the same writes and files the same rows in
   * the same order, alike in all but their words.
   */
  lemma ModelOnlyWrites(
    store: Store, account: string, inp: SyncInput, w1: Writer, shelf1: Shelf, w2: Writer, shelf2: Shelf)
    requires ValidInstant(w1.clock) && ValidInstant(w2.clock)
    ensures
      var a := SyncOnce(store, account, inp, w1, shelf1);
      var b := SyncOnce(store, account, inp, w2, shelf2);
      SameDecisions(a.store, b.store) && a.report == b.report
  {
    var ps := ProposalsOf(inp, account);
    var (g1, s1, _) := Prepare(store, account, inp, w1, shelf1);
    var (g2, s2, _) := Prepare(store, account, inp, w2, shelf2);
    ProposeAllAlike(g1, g2, s1, s2, ps);
    var a, b := ProposeAll(g1, s1, ps), ProposeAll(g2, s2, ps);
    ApplyGroupsAlike(a.store, b.store, inp, a.groups);
  }
}
