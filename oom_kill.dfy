/**
 * The scoring and victim selection of the out-of-memory killer
 * (mm/oom_kill.c): which tasks may be killed, how bad each one is, which
 * one is chosen, and the all-or-nothing OOM lock over a zonelist.
 */
module OomKill {

  /** OOM_SCORE_ADJ_MIN and OOM_SCORE_ADJ_MAX bound signal->oom_score_adj. */
  const OOM_SCORE_ADJ_MIN: int := -1000
  const OOM_SCORE_ADJ_MAX: int := 1000

  type ScoreAdj = x: int | OOM_SCORE_ADJ_MIN <= x <= OOM_SCORE_ADJ_MAX

  const U32_MOD: nat := 0x1_0000_0000
  const U64_MOD: nat := 0x1_0000_0000_0000_0000
  const ULONG_MAX: nat := 0xffff_ffff_ffff_ffff

  /** The conversion of an unsigned long to unsigned int. */
  function U32(x: nat): (r: nat)
    ensures r < U32_MOD
    ensures x < U32_MOD ==> r == x
  {
    x % U32_MOD
  }

  /** An address space: its identity and the pages oom_badness counts. */
  datatype Mm = Mm(id: nat, rss: nat, ptes: nat, swapents: nat)

  /** What the OOM killer reads of a task. */
  datatype Task = Task(
    globalInit: bool,         // is_global_init
    kthread: bool,            // PF_KTHREAD
    inMemcg: bool,            // task_in_mem_cgroup for the memcg under pressure
    intersectsMems: bool,     // has_intersects_mems_allowed for the nodemask
    exitState: bool,          // task->exit_state != 0
    memdie: bool,             // TIF_MEMDIE
    exiting: bool,            // PF_EXITING
    leaderTracesExit: bool,   // group_leader->ptrace & PT_TRACE_EXIT
    origin: bool,             // oom_task_origin
    mm: Option<Mm>,           // task->mm
    otherThreadMm: Option<Mm>, // the mm of another thread of the group, if any
    oomScoreAdj: ScoreAdj,
    sysAdmin: bool)           // has_capability_noaudit(CAP_SYS_ADMIN)

  datatype Option<T> = None | Some(value: T)

  /** find_lock_task_mm: the task's own mm, else that of another thread in its group. */
  function GroupMm(t: Task): (m: Option<Mm>)
    ensures t.mm.Some? ==> m == t.mm
    ensures m.None? <==> t.mm.None? && t.otherThreadMm.None?
  {
    if t.mm.Some? then t.mm else t.otherThreadMm
  }

  /**
   * oom_unkillable_task: init, kernel threads, tasks outside the memory
   * cgroup under pressure (when one is given) and tasks whose allowed
   * nodes miss the nodemask are never candidates.
   */
  predicate Unkillable(t: Task, memcgGiven: bool): (u: bool)
    ensures t.globalInit || t.kthread || !t.intersectsMems ==> u
    ensures !memcgGiven ==> (u <==> t.globalInit || t.kthread || !t.intersectsMems)
    ensures memcgGiven ==> (u <==> t.globalInit || t.kthread || !t.inMemcg || !t.intersectsMems)
  {
    t.globalInit || t.kthread || (memcgGiven && !t.inMemcg) || !t.intersectsMems
  }

  /** The CAP_SYS_ADMIN discount of oom_badness: 3% of the pages held, rounded down, come off. */
  function AdminDiscounted(held: nat): (d: nat)
    ensures d <= held
  {
    held - (held * 3) / 100
  }

  /** The last step of oom_badness: the adjustment (oom_score_adj thousandths of totalpages) is added, and the score is at least 1. */
  function Adjusted(points: nat, bonus: int): (p: nat)
    ensures p >= 1
    ensures bonus <= 0 ==> p <= points || p == 1
  {
    if points + bonus > 0 then points + bonus else 1
  }

  /**
   * oom_badness: 0 for an excluded task; otherwise the pages it holds, 3%
   * less for CAP_SYS_ADMIN, moved by oom_score_adj thousandths of all
   * pages, and at least 1.
   */
  function Badness(t: Task, memcgGiven: bool, totalpages: nat): (points: nat)
    ensures points == 0 <==>
              Unkillable(t, memcgGiven) || GroupMm(t).None? || t.oomScoreAdj == OOM_SCORE_ADJ_MIN
    ensures points > 0 && t.oomScoreAdj <= 0 && !t.sysAdmin ==>
              points <= GroupMm(t).value.rss + GroupMm(t).value.ptes + GroupMm(t).value.swapents
              || points == 1
  {
    if Unkillable(t, memcgGiven) then 0
    else if GroupMm(t).None? then 0
    else if t.oomScoreAdj == OOM_SCORE_ADJ_MIN then 0
    else
      var m := GroupMm(t).value;
      var held := m.rss + m.ptes + m.swapents;
      Adjusted(if t.sysAdmin then AdminDiscounted(held) else held, t.oomScoreAdj * (totalpages / 1000))
  }

  lemma MulMonotone(a: int, b: int, c: nat)
    requires a <= b
    ensures a * c <= b * c
  {
  }

  /** Raising oom_score_adj never lowers the score. */
  lemma BadnessMonotone(t: Task, memcgGiven: bool, totalpages: nat, adj: ScoreAdj)
    requires t.oomScoreAdj <= adj
    ensures Badness(t, memcgGiven, totalpages) <= Badness(t.(oomScoreAdj := adj), memcgGiven, totalpages)
  {
    MulMonotone(t.oomScoreAdj, adj, totalpages / 1000);
  }

  /** CAP_SYS_ADMIN never raises the score: the same task without it scores at least as much. */
  lemma AdminDiscountNeverRaises(t: Task, memcgGiven: bool, totalpages: nat)
    requires t.sysAdmin
    ensures Badness(t, memcgGiven, totalpages) <= Badness(t.(sysAdmin := false), memcgGiven, totalpages)
  {
    if !Unkillable(t, memcgGiven) && GroupMm(t).Some? && t.oomScoreAdj != OOM_SCORE_ADJ_MIN {
      var m := GroupMm(t).value;
      DiscountNeverRaises(m.rss + m.ptes + m.swapents, t.oomScoreAdj * (totalpages / 1000));
    }
  }

  lemma DiscountNeverRaises(held: nat, bonus: int)
    ensures Adjusted(AdminDiscounted(held), bonus) <= Adjusted(held, bonus)
  {
  }

  /** A killable task at OOM_SCORE_ADJ_MAX scores at least totalpages rounded down to thousands, with or without the admin discount. */
  lemma MaxAdjDominates(t: Task, memcgGiven: bool, totalpages: nat)
    requires !Unkillable(t, memcgGiven) && GroupMm(t).Some?
    requires t.oomScoreAdj == OOM_SCORE_ADJ_MAX
    ensures Badness(t, memcgGiven, totalpages) >= (totalpages / 1000) * 1000
  {
  }

  // ---------------------------------------------------------------------
  // oom_scan_process_thread

  datatype ScanResult = ScanOk | ScanContinue | ScanAbort | ScanSelect

  /**
   * oom_scan_process_thread, checked in this order: exited or unkillable
   * tasks are skipped; a task already dying (TIF_MEMDIE) aborts the scan
   * unless the kill is forced; tasks without an mm are skipped; an origin
   * task is selected; an exiting task aborts the scan unless the kill is
   * forced or its leader traces exits.
   */
  function OomScan(t: Task, forceKill: bool): (r: ScanResult)
    ensures r == ScanAbort <==>
              !forceKill && !t.exitState && !Unkillable(t, false)
              && (t.memdie || (t.mm.Some? && !t.origin && t.exiting && !t.leaderTracesExit))
    ensures r == ScanSelect <==> !t.exitState && !Unkillable(t, false) && (forceKill || !t.memdie) && t.mm.Some? && t.origin
    ensures r == ScanOk <==>
              !t.exitState && !Unkillable(t, false) && (forceKill || !t.memdie) && t.mm.Some? && !t.origin
              && (forceKill || !t.exiting || t.leaderTracesExit)
  {
    if t.exitState then ScanContinue
    else if Unkillable(t, false) then ScanContinue
    else if t.memdie && !forceKill then ScanAbort
    else if t.mm.None? then ScanContinue
    else if t.origin then ScanSelect
    else if t.exiting && !forceKill && !t.leaderTracesExit then ScanAbort
    else ScanOk
  }

  /** A forced kill never aborts the scan, and a task the scan accepts has a positive score unless at OOM_SCORE_ADJ_MIN. */
  lemma ScanAgreesWithBadness(t: Task, forceKill: bool, totalpages: nat)
    ensures forceKill ==> OomScan(t, true) != ScanAbort
    ensures OomScan(t, forceKill) == ScanOk ==>
              (Badness(t, false, totalpages) > 0 <==> t.oomScoreAdj != OOM_SCORE_ADJ_MIN)
  {
  }

  // ---------------------------------------------------------------------
  // First strict maximum (the shape both selection loops share)

  /**
   * The index of the first score strictly above all before it and not
   * below any, with that score; (None, 0) when every score is 0.
   */
  function FirstStrictMax(scores: seq<nat>, n: nat): (r: (Option<nat>, nat))
    requires n <= |scores|
    ensures r.0.Some? ==> r.0.value < n
  {
    if n == 0 then (None, 0)
    else
      var p := FirstStrictMax(scores, n - 1);
      if scores[n - 1] > p.1 then (Some(n - 1), scores[n - 1]) else p
  }

  lemma {:induction false} FirstStrictMaxIsMax(scores: seq<nat>, n: nat)
    requires n <= |scores|
    ensures var r := FirstStrictMax(scores, n);
            && (r.0.None? <==> forall i | 0 <= i < n :: scores[i] == 0)
            && (r.0.None? ==> r.1 == 0)
            && (r.0.Some? ==> r.0.value < n && r.1 == scores[r.0.value] > 0)
            && (forall i | 0 <= i < n :: scores[i] <= r.1)
            && (r.0.Some? ==> forall i | 0 <= i < r.0.value :: scores[i] < r.1)
  {
    if n > 0 {
      FirstStrictMaxIsMax(scores, n - 1);
    }
  }

  // ---------------------------------------------------------------------
  // select_bad_process

  /** The scan's state: the task chosen so far and chosen_points, or aborted. */
  datatype SelectState = Scanning(chosen: Option<nat>, chosenPoints: nat) | ScanAborted

  /** The score select_bad_process keeps for a task: oom_badness narrowed to unsigned int. */
  function TaskPoints(t: Task, totalpages: nat): (p: nat)
    ensures p < U32_MOD
    ensures Badness(t, false, totalpages) < U32_MOD ==> p == Badness(t, false, totalpages)
    ensures Unkillable(t, false) || t.oomScoreAdj == OOM_SCORE_ADJ_MIN ==> p == 0
  {
    U32(Badness(t, false, totalpages))
  }

  function SelectFrom(tasks: seq<Task>, n: nat, forceKill: bool, totalpages: nat): SelectState
    requires n <= |tasks|
  {
    if n == 0 then Scanning(None, 0)
    else
      match SelectFrom(tasks, n - 1, forceKill, totalpages)
      case ScanAborted => ScanAborted
      case Scanning(chosen, chosenPoints) =>
        match OomScan(tasks[n - 1], forceKill)
        case ScanSelect => Scanning(Some(n - 1), ULONG_MAX)
        case ScanContinue => Scanning(chosen, chosenPoints)
        case ScanAbort => ScanAborted
        case ScanOk =>
          var points := TaskPoints(tasks[n - 1], totalpages);
          if points > chosenPoints then Scanning(Some(n - 1), points) else Scanning(chosen, chosenPoints)
  }

  /** What select_bad_process returns: ERR_PTR(-1UL), or the chosen task (if any) and *ppoints. */
  datatype Selection = SelectAborted | Selected(chosen: Option<nat>, ppoints: nat)

  /** *ppoints = chosen_points * 1000 / totalpages, in unsigned long and stored to an unsigned int. */
  function ScaledPoints(chosenPoints: nat, totalpages: nat): (r: nat)
    requires totalpages > 0
    ensures chosenPoints * 1000 < U64_MOD && chosenPoints * 1000 / totalpages < U32_MOD ==>
              r == chosenPoints * 1000 / totalpages
  {
    U32(((chosenPoints * 1000) % U64_MOD) / totalpages)
  }

  /**
   * A SELECT victim's chosen_points of ULONG_MAX wraps in the unsigned long
   * product: *ppoints is (2^64 - 1000) / totalpages, narrowed to unsigned int.
   */
  lemma SelectedPointsWrap(totalpages: nat)
    requires totalpages > 0
    ensures ScaledPoints(ULONG_MAX, totalpages) == U32((U64_MOD - 1000) / totalpages)
  {
    assert ULONG_MAX * 1000 == 999 * U64_MOD + (U64_MOD - 1000);
    assert (ULONG_MAX * 1000) % U64_MOD == U64_MOD - 1000;
  }

  /**
   * select_bad_process: ERR_PTR(-1UL) exactly when some thread aborts the
   * scan; otherwise the chosen thread is one the scan accepted or
   * selected, so it is alive, killable and has an mm.
   */
  function SelectBadProcess(tasks: seq<Task>, forceKill: bool, totalpages: nat): (r: Selection)
    requires totalpages > 0
    ensures r.SelectAborted? <==> exists i | 0 <= i < |tasks| :: OomScan(tasks[i], forceKill) == ScanAbort
    ensures r.Selected? && r.chosen.Some? ==>
              var c := r.chosen.value;
              && c < |tasks| && !tasks[c].exitState && !Unkillable(tasks[c], false) && tasks[c].mm.Some?
              && (OomScan(tasks[c], forceKill) == ScanOk || OomScan(tasks[c], forceKill) == ScanSelect)
  {
    AbortIffSomeTaskAborts(tasks, |tasks|, forceKill, totalpages);
    ChosenWasAccepted(tasks, |tasks|, forceKill, totalpages);
    match SelectFrom(tasks, |tasks|, forceKill, totalpages)
    case ScanAborted => SelectAborted
    case Scanning(chosen, chosenPoints) => Selected(chosen, ScaledPoints(chosenPoints, totalpages))
  }

  /** select_bad_process over the task list in iteration order (do_each_thread). */
  method SelectBadProcessLoop(tasks: seq<Task>, forceKill: bool, totalpages: nat) returns (sel: Selection)
    requires totalpages > 0
    ensures sel == SelectBadProcess(tasks, forceKill, totalpages)
  {
    var chosen: Option<nat> := None;
    var chosenPoints: nat := 0;
    var i := 0;
    while i < |tasks|
      invariant 0 <= i <= |tasks|
      invariant SelectFrom(tasks, i, forceKill, totalpages) == Scanning(chosen, chosenPoints)
    {
      var p := tasks[i];
      match OomScan(p, forceKill) {
        case ScanSelect =>
          chosen := Some(i);
          chosenPoints := ULONG_MAX;
          i := i + 1;
          continue;
        case ScanContinue =>
          i := i + 1;
          continue;
        case ScanAbort =>
          AbortStaysAborted(tasks, i + 1, |tasks|, forceKill, totalpages);
          return SelectAborted;
        case ScanOk =>
      }
      var points := U32(Badness(p, false, totalpages));
      if points > chosenPoints {
        chosen := Some(i);
        chosenPoints := points;
      }
      i := i + 1;
    }
    sel := Selected(chosen, ScaledPoints(chosenPoints, totalpages));
  }

  /** The task a scan has chosen so far is one the scan accepted (OK) or selected. */
  lemma {:induction false} ChosenWasAccepted(tasks: seq<Task>, n: nat, forceKill: bool, totalpages: nat)
    requires n <= |tasks|
    ensures var r := SelectFrom(tasks, n, forceKill, totalpages);
            r.Scanning? && r.chosen.Some? ==>
              r.chosen.value < n
              && (OomScan(tasks[r.chosen.value], forceKill) == ScanOk || OomScan(tasks[r.chosen.value], forceKill) == ScanSelect)
  {
    if n > 0 {
      ChosenWasAccepted(tasks, n - 1, forceKill, totalpages);
    }
  }

  lemma {:induction false} AbortStaysAborted(tasks: seq<Task>, n: nat, m: nat, forceKill: bool, totalpages: nat)
    requires n <= m <= |tasks|
    requires SelectFrom(tasks, n, forceKill, totalpages) == ScanAborted
    ensures SelectFrom(tasks, m, forceKill, totalpages) == ScanAborted
  {
    if m > n {
      AbortStaysAborted(tasks, n, m - 1, forceKill, totalpages);
    }
  }

  /** The scan aborts exactly when some task classifies ABORT. */
  lemma {:induction false} AbortIffSomeTaskAborts(tasks: seq<Task>, n: nat, forceKill: bool, totalpages: nat)
    requires n <= |tasks|
    ensures SelectFrom(tasks, n, forceKill, totalpages) == ScanAborted
            <==> exists i | 0 <= i < n :: OomScan(tasks[i], forceKill) == ScanAbort
  {
    if n > 0 {
      AbortIffSomeTaskAborts(tasks, n - 1, forceKill, totalpages);
      if OomScan(tasks[n - 1], forceKill) == ScanAbort {
        assert exists i | 0 <= i < n :: OomScan(tasks[i], forceKill) == ScanAbort;
      } else if SelectFrom(tasks, n, forceKill, totalpages) != ScanAborted {
        forall i | 0 <= i < n
          ensures OomScan(tasks[i], forceKill) != ScanAbort
        {
          if i < n - 1 {
            assert SelectFrom(tasks, n - 1, forceKill, totalpages) != ScanAborted;
          }
        }
      }
    }
  }

  /** The scores the loop compares when only OK tasks count: a task the scan does not accept counts 0. */
  function OkScores(tasks: seq<Task>, forceKill: bool, totalpages: nat): (s: seq<nat>)
    ensures |s| == |tasks|
    ensures forall i | 0 <= i < |tasks| ::
              s[i] == (if OomScan(tasks[i], forceKill) == ScanOk then TaskPoints(tasks[i], totalpages) else 0)
  {
    seq(|tasks|, i requires 0 <= i < |tasks| =>
      if OomScan(tasks[i], forceKill) == ScanOk then TaskPoints(tasks[i], totalpages) else 0)
  }

  /** Without SELECT or ABORT tasks, select_bad_process is the first strict maximum of the OK tasks' scores. */
  lemma {:induction false} PlainScanIsFirstMax(tasks: seq<Task>, n: nat, forceKill: bool, totalpages: nat)
    requires n <= |tasks|
    requires forall i | 0 <= i < n :: OomScan(tasks[i], forceKill) != ScanSelect && OomScan(tasks[i], forceKill) != ScanAbort
    ensures var r := FirstStrictMax(OkScores(tasks, forceKill, totalpages), n);
            SelectFrom(tasks, n, forceKill, totalpages) == Scanning(r.0, r.1)
  {
    if n > 0 {
      PlainScanIsFirstMax(tasks, n - 1, forceKill, totalpages);
    }
  }

  /**
   * Without SELECT or ABORT tasks the chosen task is an OK task of
   * strictly positive score that no OK task beats and every earlier one
   * falls short of; nothing is chosen when every OK task scores 0.
   */
  lemma ChosenIsFirstWorst(tasks: seq<Task>, forceKill: bool, totalpages: nat)
    requires forall i | 0 <= i < |tasks| :: OomScan(tasks[i], forceKill) != ScanSelect && OomScan(tasks[i], forceKill) != ScanAbort
    ensures var r := SelectFrom(tasks, |tasks|, forceKill, totalpages);
            && r.Scanning?
            && (r.chosen.None? <==> forall i | 0 <= i < |tasks| && OomScan(tasks[i], forceKill) == ScanOk :: TaskPoints(tasks[i], totalpages) == 0)
            && (r.chosen.Some? ==>
                  var c := r.chosen.value;
                  && c < |tasks| && OomScan(tasks[c], forceKill) == ScanOk
                  && r.chosenPoints == TaskPoints(tasks[c], totalpages) > 0
                  && (forall i | 0 <= i < |tasks| && OomScan(tasks[i], forceKill) == ScanOk :: TaskPoints(tasks[i], totalpages) <= r.chosenPoints)
                  && (forall i | 0 <= i < c && OomScan(tasks[i], forceKill) == ScanOk :: TaskPoints(tasks[i], totalpages) < r.chosenPoints))
  {
    var s := OkScores(tasks, forceKill, totalpages);
    PlainScanIsFirstMax(tasks, |tasks|, forceKill, totalpages);
    FirstStrictMaxIsMax(s, |tasks|);
  }

  /**
   * With no ABORT, an origin (SELECT) task wins outright: the choice is the
   * last SELECT task and chosen_points is ULONG_MAX, which no OK task's
   * unsigned int score can beat.
   */
  lemma {:induction false} LastSelectWins(tasks: seq<Task>, n: nat, forceKill: bool, totalpages: nat, s: nat)
    requires s < n <= |tasks|
    requires OomScan(tasks[s], forceKill) == ScanSelect
    requires forall i | s < i < n :: OomScan(tasks[i], forceKill) != ScanSelect
    requires forall i | 0 <= i < n :: OomScan(tasks[i], forceKill) != ScanAbort
    ensures SelectFrom(tasks, n, forceKill, totalpages) == Scanning(Some(s), ULONG_MAX)
  {
    if n - 1 > s {
      LastSelectWins(tasks, n - 1, forceKill, totalpages, s);
    } else {
      AbortIffSomeTaskAborts(tasks, n - 1, forceKill, totalpages);
    }
  }

  // ---------------------------------------------------------------------
  // The child-victim loop of oom_kill_process

  /** child->mm == p->mm: the same address space, or both without one. */
  predicate SameMm(a: Option<Mm>, b: Option<Mm>)
  {
    (a.None? && b.None?) || (a.Some? && b.Some? && a.value.id == b.value.id)
  }

  /** The scores the child loop compares: 0 for a child sharing the parent's mm. */
  function ChildScores(children: seq<Task>, parentMm: Option<Mm>, memcgGiven: bool, totalpages: nat): (s: seq<nat>)
    ensures |s| == |children|
    ensures forall i | 0 <= i < |children| ::
              s[i] == (if SameMm(children[i].mm, parentMm) then 0 else U32(Badness(children[i], memcgGiven, totalpages)))
  {
    seq(|children|, i requires 0 <= i < |children| =>
      if SameMm(children[i].mm, parentMm) then 0 else U32(Badness(children[i], memcgGiven, totalpages)))
  }

  /**
   * The children of all of p's threads, in iteration order; the victim
   * starts as p itself (None) with victim_points 0 and moves to a child
   * not sharing p's mm whose score is strictly greater.
   */
  method SacrificeChild(children: seq<Task>, parentMm: Option<Mm>, memcgGiven: bool, totalpages: nat)
    returns (victim: Option<nat>, victimPoints: nat)
    ensures (victim, victimPoints) == FirstStrictMax(ChildScores(children, parentMm, memcgGiven, totalpages), |children|)
  {
    ghost var scores := ChildScores(children, parentMm, memcgGiven, totalpages);
    victim := None;
    victimPoints := 0;
    var i := 0;
    while i < |children|
      invariant 0 <= i <= |children|
      invariant (victim, victimPoints) == FirstStrictMax(scores, i)
    {
      var child := children[i];
      if !SameMm(child.mm, parentMm) {
        var childPoints := U32(Badness(child, memcgGiven, totalpages));
        if childPoints > victimPoints {
          victim := Some(i);
          victimPoints := childPoints;
        }
      }
      i := i + 1;
    }
  }

  /** A child replaces p only if it has its own mm and outscores every other such child, the earlier ones strictly. */
  lemma SacrificedChildIsWorst(children: seq<Task>, parentMm: Option<Mm>, memcgGiven: bool, totalpages: nat)
    ensures var s := ChildScores(children, parentMm, memcgGiven, totalpages);
            var r := FirstStrictMax(s, |children|);
            && (r.0.Some? ==>
                  && !SameMm(children[r.0.value].mm, parentMm)
                  && Badness(children[r.0.value], memcgGiven, totalpages) > 0
                  && (forall i | 0 <= i < |children| :: s[i] <= s[r.0.value])
                  && (forall i | 0 <= i < r.0.value :: s[i] < s[r.0.value]))
            && (r.0.None? <==> forall i | 0 <= i < |children| && !SameMm(children[i].mm, parentMm) ::
                                  U32(Badness(children[i], memcgGiven, totalpages)) == 0)
  {
    var s := ChildScores(children, parentMm, memcgGiven, totalpages);
    FirstStrictMaxIsMax(s, |children|);
  }

  // ---------------------------------------------------------------------
  // try_set_zonelist_oom / clear_zonelist_oom

  predicate ZonesInRange(zonelist: seq<nat>, n: nat)
  {
    forall k | 0 <= k < |zonelist| :: zonelist[k] < n
  }

  /** Lock every zone of the zonelist, unless one of them is already locked. */
  function TrySet(locked: seq<bool>, zonelist: seq<nat>): (r: (int, seq<bool>))
    requires ZonesInRange(zonelist, |locked|)
    ensures |r.1| == |locked|
    ensures r.0 == 0 <==> exists k | 0 <= k < |zonelist| :: locked[zonelist[k]]
    ensures r.0 == 0 ==> r.1 == locked
    ensures r.0 != 0 ==> r.0 == 1 && forall z | 0 <= z < |locked| :: r.1[z] == (locked[z] || z in zonelist)
  {
    if exists k | 0 <= k < |zonelist| :: locked[zonelist[k]] then (0, locked)
    else (1, seq(|locked|, z requires 0 <= z < |locked| => locked[z] || z in zonelist))
  }

  function Clear(locked: seq<bool>, zonelist: seq<nat>): (r: seq<bool>)
    requires ZonesInRange(zonelist, |locked|)
    ensures |r| == |locked|
    ensures forall z | 0 <= z < |locked| :: r[z] == (locked[z] && z !in zonelist)
  {
    seq(|locked|, z requires 0 <= z < |locked| => locked[z] && z !in zonelist)
  }

  /**
   * The zone lock is exclusive and balanced: after a successful try_set, a
   * second try_set over any zonelist sharing a zone fails, and clearing the
   * same zonelist gives back the flags as they were.
   */
  lemma ZoneLockIsExclusive(locked: seq<bool>, zonelist: seq<nat>, other: seq<nat>, z: nat)
    requires ZonesInRange(zonelist, |locked|) && ZonesInRange(other, |locked|)
    requires TrySet(locked, zonelist).0 == 1
    requires z in zonelist && z in other
    ensures TrySet(TrySet(locked, zonelist).1, other).0 == 0
    ensures Clear(TrySet(locked, zonelist).1, zonelist) == locked
  {
    var after := TrySet(locked, zonelist).1;
    var k :| 0 <= k < |other| && other[k] == z;
    assert after[other[k]];
    forall y | 0 <= y < |locked|
      ensures Clear(after, zonelist)[y] == locked[y]
    {
      if y in zonelist {
        var j :| 0 <= j < |zonelist| && zonelist[j] == y;
        assert !locked[zonelist[j]];
      }
    }
  }

  /** The ZONE_OOM_LOCKED flags of all zones. */
  class ZoneFlags {
    const locked: array<bool>

    constructor (nzones: nat)
      ensures locked.Length == nzones && fresh(locked)
      ensures forall z | 0 <= z < nzones :: !locked[z]
    {
      locked := new bool[nzones](_ => false);
    }

    method TrySetZonelistOom(zonelist: seq<nat>) returns (ret: int)
      requires ZonesInRange(zonelist, locked.Length)
      modifies locked
      ensures (ret, locked[..]) == TrySet(old(locked[..]), zonelist)
    {
      var k := 0;
      while k < |zonelist|
        invariant 0 <= k <= |zonelist|
        invariant forall j | 0 <= j < k :: !locked[zonelist[j]]
        invariant locked[..] == old(locked[..])
      {
        if locked[zonelist[k]] {
          assert old(locked[..])[zonelist[k]];
          return 0;
        }
        k := k + 1;
      }
      ghost var before := locked[..];
      assert !exists j | 0 <= j < |zonelist| :: before[zonelist[j]];
      k := 0;
      while k < |zonelist|
        invariant 0 <= k <= |zonelist|
        invariant forall z | 0 <= z < locked.Length :: locked[z] == (before[z] || z in zonelist[..k])
      {
        locked[zonelist[k]] := true;
        k := k + 1;
      }
      assert zonelist[..k] == zonelist;
      ret := 1;
      assert before == old(locked[..]);
      assert TrySet(before, zonelist).0 == 1;
      assert locked[..] == TrySet(before, zonelist).1;
    }

    method ClearZonelistOom(zonelist: seq<nat>)
      requires ZonesInRange(zonelist, locked.Length)
      modifies locked
      ensures locked[..] == Clear(old(locked[..]), zonelist)
    {
      var k := 0;
      while k < |zonelist|
        invariant 0 <= k <= |zonelist|
        invariant forall z | 0 <= z < locked.Length :: locked[z] == (old(locked[z]) && z !in zonelist[..k])
      {
        locked[zonelist[k]] := false;
        k := k + 1;
      }
      assert zonelist[..k] == zonelist;
    }
  }

  // ---------------------------------------------------------------------
  // check_panic_on_oom

  datatype Constraint = ConstraintNone | ConstraintCpuset | ConstraintMemoryPolicy | ConstraintMemcg

  /**
   * check_panic_on_oom: with panic_on_oom 2 every OOM panics; with any other
   * non-zero value only an unconstrained (system-wide) one does.
   */
  function PanicsOnOom(panicOnOom: int, constraint: Constraint): (panics: bool)
    ensures panicOnOom == 0 ==> !panics
    ensures panicOnOom == 2 ==> panics
    ensures panicOnOom != 0 && constraint == ConstraintNone ==> panics
    ensures panicOnOom != 2 && constraint != ConstraintNone ==> !panics
  {
    if panicOnOom == 0 then false
    else if panicOnOom != 2 && constraint != ConstraintNone then false
    else true
  }

  lemma PanicPolicy(panicOnOom: int, constraint: Constraint)
    ensures PanicsOnOom(panicOnOom, constraint) <==> panicOnOom != 0 && (panicOnOom == 2 || constraint == ConstraintNone)
    ensures PanicsOnOom(2, constraint)
    ensures PanicsOnOom(panicOnOom, constraint) ==> PanicsOnOom(panicOnOom, ConstraintNone)
  {
  }
}
