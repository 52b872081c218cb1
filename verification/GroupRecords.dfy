/**
 * What each step of the group fetcher changes in the stored groups, told by the
 * fields of their records: who makes a group unverified and who verifies it, who
 * stores its key and its state, and which groups a step leaves alone.
 */
module GroupRecords {
  import opened Options
  import opened Sequences
  import opened GroupReceiveRecord
  import opened GroupFetchModel
  import opened GroupEviction
  import opened GroupFetchClaims

  /** The group that an event is about. */
  function GroupOf(e: Event): Option<string> {
    match e
    case Claim(group, _) => Some(group)
    case AdmitContext(group, _, _, _) => Some(group)
    case AdmitContextCrash(group, _, _, _) => Some(group)
    case AdmitSync(group, _) => Some(group)
    case StoreState(group, _) => Some(group)
    case Delete(group) => Some(group)
    case Start(group, _, _, _) => Some(group)
    case RecordFetch(group, _) => Some(group)
    case Finish(group) => Some(group)
    case Tick(_) => None
    case Crash => None
  }

  /** The event admits a context of the group, with no master key stored before. */
  predicate AdmitsUnverified(w: World, e: Event, group: string) {
    match e
    case AdmitContext(g, _, sender, waiting) => g == group && !HasKey(w, g) && Admits(w, g, sender, waiting)
    case AdmitContextCrash(g, _, sender, waiting) => g == group && !HasKey(w, g) && Admits(w, g, sender, waiting)
    case _ => false
  }

  /** The event verifies the group: an own device vouched for it, or its state was verified. */
  predicate Verifies(e: Event, group: string) {
    match e
    case AdmitSync(g, _) => g == group
    case StoreState(g, _) => g == group
    case RecordFetch(g, outcome) => g == group && outcome.Synced?
    case _ => false
  }

  function UnverifiedBy(w: World, group: string): Option<Origin> {
    if group in w.store then w.store[group].receive.unverified else None
  }

  /** A step changes the record of no other group, but for the groups that it removes. */
  lemma OtherGroupsStay(w: World, e: Event, other: string)
    requires Enabled(w, e) && GroupOf(e) != Some(other)
    ensures Removes(w, e, other) || !(other in w.store) ==> other !in Next(w, e).store
    ensures !Removes(w, e, other) && other in w.store ==>
              other in Next(w, e).store && Next(w, e).store[other] == w.store[other]
  {
  }

  /**
   * A group is unverified if and only if a context without a key admitted it and
   * nothing verified it since. The first such context stays its origin, with the
   * sender device and the time of the admission.
   */
  lemma UnverifiedIff(w: World, e: Event, group: string)
    requires Enabled(w, e) && group in Next(w, e).store
    ensures UnverifiedBy(Next(w, e), group)
            == if AdmitsUnverified(w, e, group) then Some(UnverifiedBy(w, group).GetOr(Origin(e.sender, w.now)))
               else if Verifies(e, group) then None
               else UnverifiedBy(w, group)
  {
    if e.AdmitContext? || e.AdmitContextCrash? {
      AdmissionSparesItsGroup(w, e.group, e.sender, e.waiting);
    }
  }

  /** A group has a key if and only if it had one, or this step admitted a context or a sync of it to its end. */
  lemma KeyIff(w: World, e: Event, group: string)
    requires Enabled(w, e)
    ensures HasKey(Next(w, e), group) <==>
            || (HasKey(w, group) && !Removes(w, e, group))
            || (e.AdmitContext? && AdmitsUnverified(w, e, group))
            || (e.AdmitSync? && e.group == group)
  {
    if e.AdmitContext? || e.AdmitContextCrash? {
      AdmissionSparesItsGroup(w, e.group, e.sender, e.waiting);
    }
  }

  /** A group has the state that was stored last, until it is removed. */
  lemma StateIff(w: World, e: Event, group: string)
    requires Enabled(w, e)
    ensures RevisionOf(Next(w, e), group)
            == if e.StoreState? && e.group == group then Some(e.revision)
               else if Removes(w, e, group) then None
               else RevisionOf(w, group)
  {
    if e.AdmitContext? || e.AdmitContextCrash? {
      AdmissionSparesItsGroup(w, e.group, e.sender, e.waiting);
    }
  }

  /** The required revision rises to the claim that a step applies, and only a server sync sets it otherwise. */
  lemma RequiredIff(w: World, e: Event, group: string)
    requires Enabled(w, e) && !RecordsServerSync(e, group)
    ensures Required(Next(w, e), group)
            == if ClaimOn(w, e, group).Some? then Max(Required(w, group), ClaimOn(w, e, group).value)
               else if Removes(w, e, group) then 0
               else Required(w, group)
  {
    if e.AdmitContext? || e.AdmitContextCrash? {
      AdmissionSparesItsGroup(w, e.group, e.sender, e.waiting);
    }
  }

  /** The claim that a step applies is that of the step, and it applies one whenever it admits or claims. */
  lemma ClaimIff(w: World, e: Event, group: string, revision: int)
    ensures ClaimOn(w, e, group) == Some(revision) <==>
            || e == Claim(group, revision)
            || (e == AdmitSync(group, revision) && !HasKey(w, group))
            || ((e.AdmitContext? || e.AdmitContextCrash?) && e.group == group && e.revision == revision
                && (HasKey(w, group) || AdmitsUnverified(w, e, group)))
  {
  }

  /** A record keeps the source that created it: a context, a sync, or this client. */
  lemma SourceIff(w: World, e: Event, group: string)
    requires Enabled(w, e) && group in Next(w, e).store
    ensures Next(w, e).store[group].receive.source
            == if group in w.store then w.store[group].receive.source
               else match e
                    case AdmitContext(_, _, _, _) => FromContext
                    case AdmitContextCrash(_, _, _, _) => FromContext
                    case AdmitSync(_, _) => FromSync
                    case _ => FromLocal
  {
    if e.AdmitContext? || e.AdmitContextCrash? {
      AdmissionSparesItsGroup(w, e.group, e.sender, e.waiting);
    }
  }

  /**
   * A fetch in flight is the one that was started, with the highest claim of its
   * group since, until it finishes or the client stops.
   */
  lemma FlightIff(w: World, e: Event, group: string)
    requires Enabled(w, e)
    ensures var before, after := w.inFlight, Next(w, e).inFlight;
            && (group in after <==>
                  || (e.Start? && e.group == group)
                  || (group in before && e != Finish(group) && !e.Crash? && !e.AdmitContextCrash?))
            && (group in after && group !in before ==>
                  after[group] == Flight(e.target, e.required, e.serverCall, None, false))
            && (group in after && group in before ==>
                  && after[group].target == before[group].target
                  && after[group].required == before[group].required
                  && after[group].serverCall == before[group].serverCall
                  && (after[group].recorded <==> before[group].recorded || (e.RecordFetch? && e.group == group))
                  && after[group].raised
                     == if ClaimOn(w, e, group).None? then before[group].raised
                        else Some(Max(before[group].raised.GetOr(ClaimOn(w, e, group).value),
                                      ClaimOn(w, e, group).value)))
  {
  }

  /** Only a tick moves the clock. */
  lemma ClockIff(w: World, e: Event)
    requires Enabled(w, e)
    ensures Next(w, e).now == if e.Tick? then e.time else w.now
  {
  }

  /**
   * What a fetch in flight can record, once: anything after a server call, but for
   * a carried change below its target, and else only a carried change at it.
   */
  lemma RecordsIff(w: World, group: string, outcome: Outcome)
    ensures Enabled(w, RecordFetch(group, outcome)) <==>
            && group in w.inFlight && !w.inFlight[group].recorded
            && (outcome.Synced? && !outcome.server ==> outcome.head >= w.inFlight[group].target)
            && (!w.inFlight[group].serverCall ==> outcome.Synced? && !outcome.server)
    ensures forall start, required, serverCall ::
              Enabled(w, Start(group, start, required, serverCall)) <==> group !in w.inFlight
  {
  }
}
