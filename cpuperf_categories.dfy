// The trace configuration of the CPU performance-counter provider
// (bin/cpuperf_provider/categories.cc): which trace categories the user
// enabled decides the options (os, user, pc), the sampling rate and the
// fixed and programmable event categories to collect; the configuration is
// compared, translated into the device's counter configuration, and
// printed. The category table draws on event tables (.inc files) that are
// not part of this model, so it is a parameter; so is the category
// enabling query of the trace engine.

module CpuperfCategories {
  import opened Base

  datatype CategoryGroup = OptionGroup | SampleGroup | FixedGroup | ArchGroup | ModelGroup

  /** The option categories' ids: TraceOption::kOs, kUser and kPc. */
  const kOs: nat := 0
  const kUser: nat := 1
  const kPc: nat := 2

  /** A trace category: its name, group, id (option, sampling rate or event id) and the events it programs. */
  datatype CategorySpec = CategorySpec(name: string, group: CategoryGroup, id: nat, events: seq<nat>)

  predicate Programmable(c: CategorySpec)
  {
    c.group == ArchGroup || c.group == ModelGroup
  }

  /** The observable configuration of a trace. */
  datatype Config = Config(isEnabled: bool, os: bool, user: bool, pc: bool, sampleRate: nat, selected: set<nat>)

  const kResetConfig := Config(false, false, false, false, 0, {})

  // ---------------------------------------------------------------------
  // Update, as a fold over the category table

  /** The state of Update's second loop: the options, the rate, the selection, its three flags, and whether it gave up. */
  datatype Pass = Pass(os: bool, user: bool, pc: bool, rate: nat, selected: set<nat>,
                       haveSomething: bool, haveSample: bool, haveProgrammable: bool, aborted: bool)

  const kStartPass := Pass(false, false, false, 0, {}, false, false, false, false)

  /** Update's handling of category i, enabled or not. */
  function Step(p: Pass, c: CategorySpec, i: nat, on: bool): Pass
  {
    if p.aborted || !on then p
    else match c.group
      case OptionGroup =>
        if c.id == kOs then p.(os := true)
        else if c.id == kUser then p.(user := true)
        else if c.id == kPc then p.(pc := true)
        else p
      case SampleGroup =>
        if p.haveSample then p.(aborted := true) else p.(haveSample := true, rate := c.id)
      case FixedGroup => p.(selected := p.selected + {i}, haveSomething := true)
      case _ =>
        if p.haveProgrammable then p.(aborted := true)
        else p.(haveProgrammable := true, haveSomething := true, selected := p.selected + {i})
  }

  /** The state after the first n categories. */
  function Fold(cats: seq<CategorySpec>, enabled: set<string>, n: nat): Pass
    requires n <= |cats|
  {
    if n == 0 then kStartPass
    else Step(Fold(cats, enabled, n - 1), cats[n - 1], n - 1, cats[n - 1].name in enabled)
  }

  /** The kinds of category Update counts: all, sampling, programmable, and collected (fixed or programmable). */
  datatype Kind = AnyKind | SampleKind | ProgrammableKind | CollectedKind

  predicate OfKind(c: CategorySpec, k: Kind)
  {
    match k
    case AnyKind => true
    case SampleKind => c.group == SampleGroup
    case ProgrammableKind => Programmable(c)
    case CollectedKind => c.group == FixedGroup || Programmable(c)
  }

  /** The number of enabled categories of kind k among the first n. */
  function CountEnabled(cats: seq<CategorySpec>, enabled: set<string>, n: nat, k: Kind): (r: nat)
    requires n <= |cats|
    ensures r <= n
  {
    if n == 0 then 0
    else CountEnabled(cats, enabled, n - 1, k) + (if cats[n - 1].name in enabled && OfKind(cats[n - 1], k) then 1 else 0)
  }

  /** Whether an enabled option category with the given id is among the first n. */
  function OptionEnabled(cats: seq<CategorySpec>, enabled: set<string>, n: nat, id: nat): bool
    requires n <= |cats|
  {
    n > 0 &&
    (OptionEnabled(cats, enabled, n - 1, id) ||
     (cats[n - 1].name in enabled && cats[n - 1].group == OptionGroup && cats[n - 1].id == id))
  }

  /** Every category is enabled: the trace engine's default, which this provider treats as tracing nothing. */
  predicate DefaultCase(cats: seq<CategorySpec>, enabled: set<string>)
  {
    CountEnabled(cats, enabled, |cats|, AnyKind) == |cats|
  }

  /** The configuration Update leaves. */
  function UpdateResult(cats: seq<CategorySpec>, enabled: set<string>): Config
  {
    if DefaultCase(cats, enabled) then kResetConfig
    else
      var p := Fold(cats, enabled, |cats|);
      if p.aborted then Config(false, p.os, p.user, p.pc, p.rate, p.selected)
      else
        var both := !p.os && !p.user;
        Config(p.haveSomething, p.os || both, p.user || both, p.pc, p.rate, p.selected)
  }

  /** Once Update gives up, later categories change nothing. */
  lemma {:induction false} FoldStaysAborted(cats: seq<CategorySpec>, enabled: set<string>, n: nat, m: nat)
    requires n <= m <= |cats| && Fold(cats, enabled, n).aborted
    ensures Fold(cats, enabled, m) == Fold(cats, enabled, n)
  {
    if m > n {
      FoldStaysAborted(cats, enabled, n, m - 1);
    }
  }

  /** What one step does to each field Update's results depend on. */
  lemma StepFacts(p: Pass, c: CategorySpec, i: nat, on: bool)
    ensures var q := Step(p, c, i, on);
      && q.aborted == (p.aborted || (on && ((c.group == SampleGroup && p.haveSample) ||
                                             (Programmable(c) && p.haveProgrammable))))
      && (!q.aborted ==>
          && q.haveSample == (p.haveSample || (on && c.group == SampleGroup))
          && q.haveProgrammable == (p.haveProgrammable || (on && Programmable(c)))
          && q.haveSomething == (p.haveSomething || (on && (c.group == FixedGroup || Programmable(c))))
          && q.os == (p.os || (on && c.group == OptionGroup && c.id == kOs))
          && q.user == (p.user || (on && c.group == OptionGroup && c.id == kUser)))
  {
    if on && !p.aborted {
      match c.group {
        case OptionGroup =>
        case SampleGroup =>
        case FixedGroup =>
        case ArchGroup =>
        case ModelGroup =>
      }
    }
  }

  /**
   * Update gives up exactly when a second sampling category or a second
   * programmable category is enabled; until then it has a sampling rate iff
   * one sampling category was enabled, and a programmable category iff one
   * was.
   */
  lemma {:induction false} FoldAbortIff(cats: seq<CategorySpec>, enabled: set<string>, n: nat)
    requires n <= |cats|
    ensures var p := Fold(cats, enabled, n);
      && (p.aborted <==>
          CountEnabled(cats, enabled, n, SampleKind) >= 2 || CountEnabled(cats, enabled, n, ProgrammableKind) >= 2)
      && (!p.aborted ==>
          && (p.haveSample <==> CountEnabled(cats, enabled, n, SampleKind) == 1)
          && (p.haveProgrammable <==> CountEnabled(cats, enabled, n, ProgrammableKind) == 1))
  {
    if n > 0 {
      FoldAbortIff(cats, enabled, n - 1);
      var p := Fold(cats, enabled, n - 1);
      var c := cats[n - 1];
      var on := c.name in enabled;
      StepFacts(p, c, n - 1, on);
      assert Fold(cats, enabled, n) == Step(p, c, n - 1, on);
      assert CountEnabled(cats, enabled, n, SampleKind) ==
        CountEnabled(cats, enabled, n - 1, SampleKind) + (if on && c.group == SampleGroup then 1 else 0);
      assert CountEnabled(cats, enabled, n, ProgrammableKind) ==
        CountEnabled(cats, enabled, n - 1, ProgrammableKind) + (if on && Programmable(c) then 1 else 0);
    }
  }

  /** Until Update gives up, it has something to collect iff a fixed or programmable category was enabled. */
  lemma {:induction false} FoldHaveSomething(cats: seq<CategorySpec>, enabled: set<string>, n: nat)
    requires n <= |cats| && !Fold(cats, enabled, n).aborted
    ensures Fold(cats, enabled, n).haveSomething <==> CountEnabled(cats, enabled, n, CollectedKind) >= 1
  {
    if n > 0 {
      var p := Fold(cats, enabled, n - 1);
      var c := cats[n - 1];
      var on := c.name in enabled;
      StepFacts(p, c, n - 1, on);
      assert Fold(cats, enabled, n) == Step(p, c, n - 1, on);
      FoldHaveSomething(cats, enabled, n - 1);
      assert CountEnabled(cats, enabled, n, CollectedKind) ==
        CountEnabled(cats, enabled, n - 1, CollectedKind) + (if on && (c.group == FixedGroup || Programmable(c)) then 1 else 0);
    }
  }

  /** Until Update gives up, it traces a side iff that side's option category was enabled. */
  lemma {:induction false} FoldOptions(cats: seq<CategorySpec>, enabled: set<string>, n: nat)
    requires n <= |cats| && !Fold(cats, enabled, n).aborted
    ensures Fold(cats, enabled, n).os <==> OptionEnabled(cats, enabled, n, kOs)
    ensures Fold(cats, enabled, n).user <==> OptionEnabled(cats, enabled, n, kUser)
  {
    if n > 0 {
      var p := Fold(cats, enabled, n - 1);
      var c := cats[n - 1];
      var on := c.name in enabled;
      StepFacts(p, c, n - 1, on);
      assert Fold(cats, enabled, n) == Step(p, c, n - 1, on);
      FoldOptions(cats, enabled, n - 1);
    }
  }

  /** When every category is enabled, nothing is traced. */
  lemma DefaultCaseDisabled(cats: seq<CategorySpec>, enabled: set<string>)
    requires forall c :: c in cats ==> c.name in enabled
    ensures UpdateResult(cats, enabled) == kResetConfig
  {
    AllEnabledCount(cats, enabled, |cats|);
  }

  lemma {:induction false} AllEnabledCount(cats: seq<CategorySpec>, enabled: set<string>, n: nat)
    requires n <= |cats| && forall c :: c in cats ==> c.name in enabled
    ensures CountEnabled(cats, enabled, n, AnyKind) == n
  {
    if n > 0 {
      assert cats[n - 1] in cats;
      AllEnabledCount(cats, enabled, n - 1);
    }
  }

  /**
   * Outside the default case, tracing is enabled iff at most one sampling
   * and at most one programmable category, and at least one fixed or
   * programmable category, are enabled.
   */
  lemma UpdateEnabledIff(cats: seq<CategorySpec>, enabled: set<string>)
    requires !DefaultCase(cats, enabled)
    ensures UpdateResult(cats, enabled).isEnabled <==>
      && CountEnabled(cats, enabled, |cats|, SampleKind) <= 1
      && CountEnabled(cats, enabled, |cats|, ProgrammableKind) <= 1
      && CountEnabled(cats, enabled, |cats|, CollectedKind) >= 1
  {
    FoldAbortIff(cats, enabled, |cats|);
    if !Fold(cats, enabled, |cats|).aborted {
      FoldHaveSomething(cats, enabled, |cats|);
    }
  }

  /** A completed Update traces the OS side iff cpu:os was enabled or neither cpu:os nor cpu:user was, and likewise the user side. */
  lemma UpdateOsUser(cats: seq<CategorySpec>, enabled: set<string>)
    requires !DefaultCase(cats, enabled) && !Fold(cats, enabled, |cats|).aborted
    ensures var os := OptionEnabled(cats, enabled, |cats|, kOs);
      var user := OptionEnabled(cats, enabled, |cats|, kUser);
      && (UpdateResult(cats, enabled).os <==> os || !user)
      && (UpdateResult(cats, enabled).user <==> user || !os)
  {
    FoldOptions(cats, enabled, |cats|);
  }

  // ---------------------------------------------------------------------
  // Comparison, device configuration and printing

  /** Changed: any field differs, the selection compared as a set. */
  function Changed(a: Config, old_: Config): (r: bool)
    ensures r <==> a != old_
    ensures !r ==> a.selected == old_.selected && a.isEnabled == old_.isEnabled
  {
    a.isEnabled != old_.isEnabled || a.os != old_.os || a.user != old_.user || a.pc != old_.pc ||
    a.sampleRate != old_.sampleRate || a.selected != old_.selected
  }

  /** The configuration flags of every used counter (bit values from cpu-perf.h, not part of this model). */
  datatype ConfigFlags = ConfigFlags(os: bool, user: bool, pc: bool)

  const kNoFlags := ConfigFlags(false, false, false)

  /** The device configuration: per counter its event, its sampling rate and its flags. */
  datatype DeviceConfig = DeviceConfig(counters: seq<nat>, rate: seq<nat>, flags: seq<ConfigFlags>)

  /** The counters a category occupies: one fixed counter, or each of its programmable events. */
  function CategoryCounters(c: CategorySpec, fixedCounterId: nat -> nat): seq<nat>
  {
    if c.group == FixedGroup then [fixedCounterId(c.id)] else c.events
  }

  /** The counters of the selected categories, in the order they are visited. */
  function Counters(cats: seq<CategorySpec>, order: seq<nat>, fixedCounterId: nat -> nat): seq<nat>
    requires forall j :: 0 <= j < |order| ==> order[j] < |cats|
  {
    if |order| == 0 then []
    else Counters(cats, order[..|order| - 1], fixedCounterId) + CategoryCounters(cats[order[|order| - 1]], fixedCounterId)
  }

  /** n zeroed slots. */
  function Zeros(n: nat): (z: seq<nat>)
    ensures |z| == n && forall i :: 0 <= i < n ==> z[i] == 0
  {
    seq(n, _ => 0)
  }

  /**
   * TranslateToDeviceConfig: the selected categories' counters, visited in
   * `order` (the set's iteration order), fill the first counter slots,
   * each used slot with the sampling rate and the option flags; false when
   * they do not fit in `maxCounters` slots, the slots then holding the
   * counters that fitted. `fixedCounterId` is GetFixedCounterId.
   */
  method TranslateToDeviceConfig(cfg: Config, cats: seq<CategorySpec>, order: seq<nat>, maxCounters: nat,
                                 fixedCounterId: nat -> nat)
    returns (ok: bool, dev: DeviceConfig)
    requires forall j :: 0 <= j < |order| ==>
      order[j] < |cats| && cats[order[j]].group != OptionGroup && cats[order[j]].group != SampleGroup
    requires ListsSelection(order, cfg.selected)
    ensures var all := Counters(cats, order, fixedCounterId);
      && (ok <==> |all| <= maxCounters)
      && |dev.counters| == maxCounters && |dev.rate| == maxCounters && |dev.flags| == maxCounters
      && (ok ==> dev.counters == all + Zeros(maxCounters - |all|))
      && (!ok ==> dev.counters == all[..maxCounters])
      && (forall i :: 0 <= i < maxCounters ==>
            dev.rate[i] == (if ok && i < |all| then cfg.sampleRate else 0) &&
            dev.flags[i] == (if ok && i < |all| then ConfigFlags(cfg.os, cfg.user, cfg.pc) else kNoFlags))
  {
    var counters := new nat[maxCounters](_ => 0);
    assert counters[..] == [] + Zeros(maxCounters);
    var ctr;
    ok, ctr := WriteAllCounters(counters, cats, order, fixedCounterId);
    if !ok {
      dev := DeviceConfig(counters[..], seq(maxCounters, _ => 0), seq(maxCounters, _ => kNoFlags));
      return;
    }
    var flags := ConfigFlags(cfg.os, cfg.user, cfg.pc);
    dev := DeviceConfig(counters[..], seq(maxCounters, i => if i < ctr then cfg.sampleRate else 0),
                        seq(maxCounters, i => if i < ctr then flags else kNoFlags));
  }

  /** The counter loop of TranslateToDeviceConfig: the counters of the categories in `order`, as many as fit, into zeroed slots. */
  method WriteAllCounters(counters: array<nat>, cats: seq<CategorySpec>, order: seq<nat>, fixedCounterId: nat -> nat)
    returns (ok: bool, ctr: nat)
    requires forall j :: 0 <= j < |order| ==> order[j] < |cats|
    requires counters[..] == [] + Zeros(counters.Length)
    modifies counters
    ensures var all := Counters(cats, order, fixedCounterId);
      && (ok <==> |all| <= counters.Length)
      && ctr == Min(|all|, counters.Length)
      && (ok ==> counters[..] == all + Zeros(counters.Length - |all|))
      && (!ok ==> counters[..] == all[..counters.Length])
  {
    ctr := 0;
    var j := 0;
    ghost var written: seq<nat> := [];
    while j < |order|
      invariant 0 <= j <= |order| && written == Counters(cats, order[..j], fixedCounterId)
      invariant ctr == |written| <= counters.Length
      invariant counters[..] == written + Zeros(counters.Length - ctr)
    {
      var more := CategoryCounters(cats[order[j]], fixedCounterId);
      CountersStep(cats, order, j, fixedCounterId);
      var fits;
      ghost var start := ctr;
      fits, ctr := WriteCounters(counters, ctr, more);
      SpliceZeros(written, more, ctr - start, counters.Length);
      if !fits {
        CountersOverflow(cats, order, j, fixedCounterId, counters.Length);
        return false, ctr;
      }
      written := written + more;
      j := j + 1;
    }
    assert order[..j] == order;
    ok := true;
  }

  /** Writing a prefix of `more` after `written` over zeroed slots. */
  lemma SpliceZeros(written: seq<nat>, more: seq<nat>, m: nat, len: nat)
    requires |written| + m <= len && m <= |more|
    ensures var before := written + Zeros(len - |written|);
      before[..|written|] + more[..m] + before[|written| + m..] == (written + more[..m]) + Zeros(len - |written| - m)
    ensures m == |more| ==> written + more[..m] == written + more
    ensures |written| + m == len ==> (written + more[..m]) + Zeros(len - |written| - m) == written + more[..m]
    ensures |written| + m == len ==> (written + more)[..len] == written + more[..m]
  {
    var before := written + Zeros(len - |written|);
    assert before[..|written|] == written;
    assert before[|written| + m..] == Zeros(len - |written| - m);
    assert more[..|more|] == more;
  }

  /** The counters of the first j + 1 categories: those of the first j, then category j's. */
  lemma CountersStep(cats: seq<CategorySpec>, order: seq<nat>, j: nat, fixedCounterId: nat -> nat)
    requires j < |order| && forall i :: 0 <= i < |order| ==> order[i] < |cats|
    ensures Counters(cats, order[..j + 1], fixedCounterId)
      == Counters(cats, order[..j], fixedCounterId) + CategoryCounters(cats[order[j]], fixedCounterId)
  {
    assert order[..j + 1][..j] == order[..j];
  }

  /** When the categories up to `j` overflow `len` slots, so do all of them, with the same first `len` counters. */
  lemma CountersOverflow(cats: seq<CategorySpec>, order: seq<nat>, j: nat, fixedCounterId: nat -> nat, len: nat)
    requires j < |order| && forall i :: 0 <= i < |order| ==> order[i] < |cats|
    requires |Counters(cats, order[..j], fixedCounterId)| <= len < |Counters(cats, order[..j + 1], fixedCounterId)|
    ensures var all := Counters(cats, order, fixedCounterId);
      |all| > len && all[..len] == Counters(cats, order[..j + 1], fixedCounterId)[..len]
  {
    CountersPrefix(cats, order, j + 1, fixedCounterId);
  }

  /** One category's counters written from slot `ctr` on, up to the last slot; false when they run past it. */
  method WriteCounters(counters: array<nat>, ctr: nat, more: seq<nat>) returns (ok: bool, next: nat)
    requires ctr <= counters.Length
    modifies counters
    ensures ok <==> ctr + |more| <= counters.Length
    ensures next == (if ok then ctr + |more| else counters.Length)
    ensures counters[..] == old(counters[..])[..ctr] + more[..next - ctr] + old(counters[..])[next..]
  {
    next := ctr;
    var k := 0;
    while k < |more|
      invariant 0 <= k <= |more| && next == ctr + k <= counters.Length
      invariant counters[..] == old(counters[..])[..ctr] + more[..k] + old(counters[..])[next..]
    {
      if next >= counters.Length {
        return false, next;
      }
      counters[next] := more[k];
      next := next + 1;
      k := k + 1;
      assert more[..k] == more[..k - 1] + [more[k - 1]];
    }
    ok := true;
  }

  /** The counters of a prefix of the order are a prefix of all the counters. */
  lemma {:induction false} CountersPrefix(cats: seq<CategorySpec>, order: seq<nat>, j: nat, fixedCounterId: nat -> nat)
    requires j <= |order| && forall i :: 0 <= i < |order| ==> order[i] < |cats|
    ensures Counters(cats, order[..j], fixedCounterId) <= Counters(cats, order, fixedCounterId)
  {
    if j < |order| {
      CountersPrefix(cats, order[..|order| - 1], j, fixedCounterId);
      assert order[..|order| - 1][..j] == order[..j];
    } else {
      assert order[..j] == order;
    }
  }

  /** The decimal digits of a number, as `%u` prints it. */
  function Decimal(n: nat): (s: string)
    ensures |s| >= 1 && forall i :: 0 <= i < |s| ==> '0' <= s[i] <= '9'
  {
    if n < 10 then [(n + '0' as int) as char] else Decimal(n / 10) + [((n % 10) + '0' as int) as char]
  }

  /** The value whose decimal digits these are. */
  function DecimalValue(s: string): nat
    requires forall i :: 0 <= i < |s| ==> '0' <= s[i] <= '9'
  {
    if |s| == 0 then 0 else DecimalValue(s[..|s| - 1]) * 10 + (s[|s| - 1] as int - '0' as int)
  }

  lemma {:induction false} DecimalRoundTrip(n: nat)
    ensures DecimalValue(Decimal(n)) == n
  {
    if n >= 10 {
      var s := Decimal(n);
      assert s[..|s| - 1] == Decimal(n / 10);
      DecimalRoundTrip(n / 10);
    }
  }

  /**
   * `order` lists the selected categories, each once: the iteration order
   * of selected_categories_, which the model takes as a parameter.
   */
  predicate ListsSelection(order: seq<nat>, selected: set<nat>)
  {
    && (forall j :: 0 <= j < |order| ==> order[j] in selected)
    && (forall x :: x in selected ==> x in order)
    && (forall i, j :: 0 <= i < j < |order| ==> order[i] != order[j])
  }

  /** Words joined into text, each after a comma. */
  function Joined(ws: seq<string>): string
  {
    if |ws| == 0 then "" else "," + ws[0] + Joined(ws[1..])
  }

  predicate NoComma(s: string)
  {
    forall i :: 0 <= i < |s| ==> s[i] != ','
  }

  /** The comma-separated fields of a text, as splitting it at every ',' gives them. */
  function Fields(s: string): (r: seq<string>)
    ensures |r| >= 1
  {
    if |s| == 0 then [""]
    else
      var rest := Fields(s[1..]);
      if s[0] == ',' then [""] + rest else [[s[0]] + rest[0]] + rest[1..]
  }

  /** Option names in the order ToString prints them. */
  function OptionRank(w: string): nat
  {
    if w == "os" then 0 else if w == "user" then 1 else 2
  }

  /** The names of the options set, as ToString prints them: os, user, pc, each when set, in that order. */
  function OptionWords(cfg: Config): (r: seq<string>)
    ensures ("os" in r <==> cfg.os) && ("user" in r <==> cfg.user) && ("pc" in r <==> cfg.pc)
    ensures forall w :: w in r ==> w == "os" || w == "user" || w == "pc"
    ensures forall i, j :: 0 <= i < j < |r| ==> OptionRank(r[i]) < OptionRank(r[j])
  {
    OptionWord(cfg.os, "os") + OptionWord(cfg.user, "user") + OptionWord(cfg.pc, "pc")
  }

  /** The names of the categories in `order`, in that order. */
  function NamesOf(cats: seq<CategorySpec>, order: seq<nat>): (r: seq<string>)
    requires forall j :: 0 <= j < |order| ==> order[j] < |cats|
    ensures |r| == |order| && forall j :: 0 <= j < |order| ==> r[j] == cats[order[j]].name
  {
    seq(|order|, j requires 0 <= j < |order| => cats[order[j]].name)
  }

  /** The loop over the selected categories: each name after a comma, in `order`. */
  function CategoryNames(cats: seq<CategorySpec>, order: seq<nat>): (r: string)
    requires forall j :: 0 <= j < |order| ==> order[j] < |cats|
    ensures r == Joined(NamesOf(cats, order))
  {
    if |order| == 0 then ""
    else
      assert NamesOf(cats, order)[1..] == NamesOf(cats, order[1..]);
      "," + cats[order[0]].name + CategoryNames(cats, order[1..])
  }

  /** The options: ",os", ",user" and ",pc", each when set, in that order. */
  function OptionText(cfg: Config): (r: string)
    ensures r == Joined(OptionWords(cfg))
  {
    var o, u, p := OptionWord(cfg.os, "os"), OptionWord(cfg.user, "user"), OptionWord(cfg.pc, "pc");
    var to, tu, tp := (if cfg.os then ",os" else ""), (if cfg.user then ",user" else ""), (if cfg.pc then ",pc" else "");
    assert Joined(o) == to && Joined(u) == tu && Joined(p) == tp;
    JoinedConcat(o, u);
    JoinedConcat(o + u, p);
    assert OptionWords(cfg) == o + u + p;
    to + tu + tp
  }

  /** One option's word when it is set. */
  function OptionWord(set_: bool, w: string): (r: seq<string>)
    ensures Joined(r) == if set_ then "," + w else ""
  {
    if set_ then
      assert Joined([w]) == "," + w + Joined([]);
      [w]
    else []
  }

  /** "@rate" when sampling, "tally" when counting. */
  function RateText(cfg: Config): (r: string)
    ensures |r| >= 1 && r[0] != 'd' && (r[0] == '@' <==> cfg.sampleRate > 0)
    ensures NoComma(r)
  {
    if cfg.sampleRate > 0 then "@" + Decimal(cfg.sampleRate) else "tally"
  }

  /** ToString: "disabled", or the rate text, the options and the selected categories' names. */
  function ToString(cfg: Config, cats: seq<CategorySpec>, order: seq<nat>): (s: string)
    requires forall j :: 0 <= j < |order| ==> order[j] < |cats|
    requires ListsSelection(order, cfg.selected)
    ensures |s| >= 1 && (!cfg.isEnabled <==> s == "disabled")
    ensures cfg.isEnabled ==> (s[0] == '@' <==> cfg.sampleRate > 0)
  {
    if !cfg.isEnabled then "disabled"
    else
      var head := RateText(cfg);
      var s := head + (OptionText(cfg) + CategoryNames(cats, order));
      assert s[0] == head[0];
      s
  }

  lemma {:induction false} JoinedConcat(a: seq<string>, b: seq<string>)
    ensures Joined(a + b) == Joined(a) + Joined(b)
  {
    if |a| == 0 {
      assert a + b == b;
    } else {
      assert (a + b)[1..] == a[1..] + b;
      JoinedConcat(a[1..], b);
    }
  }

  lemma {:induction false} FieldsNoComma(a: string)
    requires NoComma(a)
    ensures Fields(a) == [a]
  {
    if |a| > 0 {
      FieldsNoComma(a[1..]);
      assert [a[0]] + a[1..] == a;
    }
  }

  lemma {:induction false} FieldsComma(a: string, b: string)
    requires NoComma(a)
    ensures Fields(a + "," + b) == [a] + Fields(b)
  {
    if |a| == 0 {
      assert a + "," + b == "," + b;
      assert ("," + b)[1..] == b;
    } else {
      assert (a + "," + b)[1..] == a[1..] + "," + b;
      FieldsComma(a[1..], b);
      assert [a[0]] + a[1..] == a;
    }
  }

  /** Every word of `ws` is free of commas. */
  predicate AllNoComma(ws: seq<string>)
  {
    forall k :: 0 <= k < |ws| ==> NoComma(ws[k])
  }

  /** Text joined from comma-free words splits back into those words. */
  lemma {:induction false} FieldsOfJoined(h: string, ws: seq<string>)
    requires NoComma(h) && AllNoComma(ws)
    ensures Fields(h + Joined(ws)) == [h] + ws
    decreases |ws|
  {
    if |ws| == 0 {
      assert h + Joined(ws) == h;
      FieldsNoComma(h);
    } else {
      assert h + Joined(ws) == h + "," + (ws[0] + Joined(ws[1..]));
      FieldsComma(h, ws[0] + Joined(ws[1..]));
      FieldsOfJoined(ws[0], ws[1..]);
      assert [h] + ([ws[0]] + ws[1..]) == [h] + ws;
    }
  }

  /** The option words carry no comma. */
  lemma OptionWordsNoComma(cfg: Config)
    ensures AllNoComma(OptionWords(cfg))
  {
    var r := OptionWords(cfg);
    forall k | 0 <= k < |r| ensures NoComma(r[k]) {
      assert r[k] in r;
    }
  }

  lemma WordsNoComma(a: seq<string>, b: seq<string>)
    requires AllNoComma(a) && AllNoComma(b)
    ensures AllNoComma(a + b)
  {
    forall k | 0 <= k < |a + b| ensures NoComma((a + b)[k]) {
      if k >= |a| {
        assert (a + b)[k] == b[k - |a|];
      } else {
        assert (a + b)[k] == a[k];
      }
    }
  }

  /** A head, then two runs of comma-free words joined after it, splits back into those parts. */
  lemma FieldsOfParts(h: string, a: seq<string>, b: seq<string>)
    requires NoComma(h)
    requires AllNoComma(a) && AllNoComma(b)
    ensures Fields(h + Joined(a + b)) == [h] + a + b
  {
    WordsNoComma(a, b);
    FieldsOfJoined(h, a + b);
    assert [h] + (a + b) == [h] + a + b;
  }

  /** An enabled configuration prints as its rate text, then its option words and names joined. */
  lemma ToStringText(cfg: Config, cats: seq<CategorySpec>, order: seq<nat>)
    requires forall j :: 0 <= j < |order| ==> order[j] < |cats|
    requires ListsSelection(order, cfg.selected)
    requires cfg.isEnabled
    ensures ToString(cfg, cats, order) == RateText(cfg) + Joined(OptionWords(cfg) + NamesOf(cats, order))
  {
    JoinedConcat(OptionWords(cfg), NamesOf(cats, order));
  }

  /**
   * The text of an enabled configuration, split at its commas, is the rate
   * text, then the options set in the order os, user, pc, then the name of
   * each selected category once, in iteration order, given names without
   * commas.
   */
  lemma ToStringFields(cfg: Config, cats: seq<CategorySpec>, order: seq<nat>)
    requires forall j :: 0 <= j < |order| ==> order[j] < |cats|
    requires ListsSelection(order, cfg.selected)
    requires forall j :: 0 <= j < |order| ==> NoComma(cats[order[j]].name)
    requires cfg.isEnabled
    ensures Fields(ToString(cfg, cats, order)) == [RateText(cfg)] + OptionWords(cfg) + NamesOf(cats, order)
  {
    var names := NamesOf(cats, order);
    assert AllNoComma(names);
    OptionWordsNoComma(cfg);
    ToStringText(cfg, cats, order);
    FieldsOfParts(RateText(cfg), OptionWords(cfg), names);
  }

  /** The longest prefix of decimal digits. */
  function LeadingDigits(s: string): (d: string)
    ensures |d| <= |s| && forall i :: 0 <= i < |d| ==> '0' <= d[i] <= '9'
  {
    if |s| == 0 || !('0' <= s[0] <= '9') then "" else [s[0]] + LeadingDigits(s[1..])
  }

  lemma {:induction false} LeadingDigitsOf(d: string, t: string)
    requires forall i :: 0 <= i < |d| ==> '0' <= d[i] <= '9'
    requires |t| == 0 || !('0' <= t[0] <= '9')
    ensures LeadingDigits(d + t) == d
  {
    if |d| > 0 {
      assert (d + t)[1..] == d[1..] + t;
      LeadingDigitsOf(d[1..], t);
    } else {
      assert d + t == t;
    }
  }

  /** The sampling rate a printed configuration names: the number after '@', or 0. */
  function ParseRate(s: string): nat
  {
    if |s| > 0 && s[0] == '@' then DecimalValue(LeadingDigits(s[1..])) else 0
  }

  /** The sampling rate of an enabled configuration reads back from its printed form. */
  lemma ToStringRateRoundTrip(cfg: Config, cats: seq<CategorySpec>, order: seq<nat>)
    requires forall j :: 0 <= j < |order| ==> order[j] < |cats|
    requires ListsSelection(order, cfg.selected)
    requires cfg.isEnabled
    ensures ParseRate(ToString(cfg, cats, order)) == cfg.sampleRate
  {
    if cfg.sampleRate > 0 {
      var tail := OptionText(cfg) + CategoryNames(cats, order);
      assert ToString(cfg, cats, order) == "@" + (Decimal(cfg.sampleRate) + tail);
      ParseRateOf(cfg.sampleRate, tail);
    }
  }

  /** A rate printed after '@' and before a comma or the end reads back. */
  lemma ParseRateOf(n: nat, tail: string)
    requires |tail| == 0 || tail[0] == ','
    ensures ParseRate("@" + (Decimal(n) + tail)) == n
  {
    var d := Decimal(n);
    var s := "@" + (d + tail);
    assert s[1..] == d + tail;
    LeadingDigitsOf(d, tail);
    DecimalRoundTrip(n);
  }

  // ---------------------------------------------------------------------
  // The configuration object

  class TraceConfig {
    var isEnabled: bool
    var traceOs: bool
    var traceUser: bool
    var tracePc: bool
    var sampleRate: nat
    var selected: set<nat>

    function Value(): Config
      reads this
    {
      Config(isEnabled, traceOs, traceUser, tracePc, sampleRate, selected)
    }

    constructor()
      ensures Value() == kResetConfig
    {
      isEnabled, traceOs, traceUser, tracePc, sampleRate, selected := false, false, false, false, 0, {};
    }

    /** Reset: nothing traced. */
    method Reset()
      modifies this
      ensures Value() == kResetConfig
    {
      isEnabled, traceOs, traceUser, tracePc, sampleRate, selected := false, false, false, false, 0, {};
    }

    /** Update: the configuration the enabled categories select. */
    method Update(cats: seq<CategorySpec>, enabled: set<string>)
      modifies this
      ensures Value() == UpdateResult(cats, enabled)
    {
      Reset();
      var numEnabled := 0;
      var i := 0;
      while i < |cats|
        invariant 0 <= i <= |cats| && numEnabled == CountEnabled(cats, enabled, i, AnyKind)
      {
        if cats[i].name in enabled {
          numEnabled := numEnabled + 1;
        }
        i := i + 1;
      }
      if numEnabled == |cats| {
        return;
      }
      var completed, haveSomething := SelectCategories(cats, enabled);
      if !completed {
        return;
      }
      if !traceOs && !traceUser {
        traceOs := true;
        traceUser := true;
      }
      isEnabled := haveSomething;
    }

    /**
     * The second loop of Update, from a reset configuration: the options,
     * rate and selection of the enabled categories, stopping at a second
     * sampling or programmable category.
     */
    method SelectCategories(cats: seq<CategorySpec>, enabled: set<string>) returns (completed: bool, haveSomething: bool)
      requires Value() == kResetConfig
      modifies this
      ensures var p := Fold(cats, enabled, |cats|);
        && completed == !p.aborted && haveSomething == p.haveSomething
        && Value() == Config(false, p.os, p.user, p.pc, p.rate, p.selected)
    {
      var haveSample, haveProgrammable := false, false;
      haveSomething := false;
      var stop := false;
      var i := 0;
      while i < |cats| && !stop
        invariant 0 <= i <= |cats| && !isEnabled
        invariant Fold(cats, enabled, i) ==
          Pass(traceOs, traceUser, tracePc, sampleRate, selected, haveSomething, haveSample, haveProgrammable, stop)
      {
        stop, haveSomething, haveSample, haveProgrammable :=
          Visit(cats[i], i, cats[i].name in enabled, haveSomething, haveSample, haveProgrammable);
        i := i + 1;
      }
      if stop {
        FoldStaysAborted(cats, enabled, i, |cats|);
      }
      completed := !stop;
    }

    /** The body of Update's second loop for category i: `stop` when it is a second sampling or programmable category. */
    method Visit(c: CategorySpec, i: nat, on: bool, haveSomething: bool, haveSample: bool, haveProgrammable: bool)
      returns (stop: bool, something: bool, sample: bool, programmable: bool)
      modifies this
      ensures isEnabled == old(isEnabled)
      ensures Pass(traceOs, traceUser, tracePc, sampleRate, selected, something, sample, programmable, stop) ==
        Step(Pass(old(traceOs), old(traceUser), old(tracePc), old(sampleRate), old(selected),
                  haveSomething, haveSample, haveProgrammable, false), c, i, on)
    {
      stop, something, sample, programmable := false, haveSomething, haveSample, haveProgrammable;
      if on {
        match c.group {
          case OptionGroup =>
            if c.id == kOs {
              traceOs := true;
            } else if c.id == kUser {
              traceUser := true;
            } else if c.id == kPc {
              tracePc := true;
            }
          case SampleGroup =>
            if haveSample {
              stop := true;
            } else {
              sample := true;
              sampleRate := c.id;
            }
          case FixedGroup =>
            selected := selected + {i};
            something := true;
          case _ =>
            if haveProgrammable {
              stop := true;
            } else {
              programmable := true;
              something := true;
              selected := selected + {i};
            }
        }
      }
    }
  }
}
