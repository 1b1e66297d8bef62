/** What a policy chain says about each ledger epoch, and how growing the chain can change it. */
module PolicyHistory {
  import opened Wrappers
  import opened Texts
  import opened Proto
  import opened PolicyChain
  import PV = PolicyValidation

  // ---- lookups ----

  /** One past the last policy effective by the epoch, searching from the newest. */
  function ActiveEnd(policies: seq<Validated>, epoch: u64): (n: nat)
    ensures n <= |policies|
  {
    if policies == [] then 0
    else if policies[|policies| - 1].policy.effectiveEpoch <= epoch then |policies|
    else ActiveEnd(policies[..|policies| - 1], epoch)
  }

  function ActiveAt(policies: seq<Validated>, epoch: u64): Option<Validated> {
    Before(policies, ActiveEnd(policies, epoch))
  }

  /** The first effective epoch past the given one, searching from the oldest. */
  function NextEffectiveAfter(policies: seq<Validated>, epoch: u64): Option<u64> {
    if policies == [] then None
    else if policies[0].policy.effectiveEpoch > epoch then Some(policies[0].policy.effectiveEpoch)
    else NextEffectiveAfter(policies[1..], epoch)
  }

  predicate DisablesEarly(v: Validated, epoch: u64, k: Kind) {
    v.policy.issuedEpoch <= epoch && k in v.policy.emergencyDisabled
  }

  /** The active policy's emergency list, and those of later policies already issued. */
  predicate IsDisabledAt(policies: seq<Validated>, epoch: u64, k: Kind) {
    var n := ActiveEnd(policies, epoch);
    || (n > 0 && k in policies[n - 1].policy.emergencyDisabled)
    || exists i :: n <= i < |policies| && DisablesEarly(policies[i], epoch, k)
  }

  method EmergencyDisabledAt(policies: seq<Validated>, epoch: u64) returns (disabled: set<Kind>)
    ensures forall k :: k in disabled <==> IsDisabledAt(policies, epoch, k)
  {
    var n := ActiveEnd(policies, epoch);
    disabled := if n > 0 then policies[n - 1].policy.emergencyDisabled else {};
    for j := n to |policies|
      invariant forall k :: k in disabled <==>
                  || (n > 0 && k in policies[n - 1].policy.emergencyDisabled)
                  || exists i :: n <= i < j && DisablesEarly(policies[i], epoch, k)
    {
      if policies[j].policy.issuedEpoch <= epoch {
        disabled := disabled + policies[j].policy.emergencyDisabled;
      }
    }
  }

  // ---- the shape of a linked chain ----

  lemma {:induction false} SequencesCount(policies: seq<Validated>, i: nat)
    requires Linked(policies) && i < |policies|
    ensures policies[i].policy.sequence == i + 1
  {
    assert LinksAt(policies, i);
    if i > 0 { SequencesCount(policies, i - 1); }
  }

  lemma {:induction false} EpochsDoNotRegress(policies: seq<Validated>, i: nat, j: nat)
    requires Linked(policies) && i <= j < |policies|
    ensures policies[i].policy.effectiveEpoch <= policies[j].policy.effectiveEpoch
    ensures policies[i].policy.issuedEpoch <= policies[j].policy.issuedEpoch
    decreases j
  {
    if i < j {
      EpochsDoNotRegress(policies, i, j - 1);
      assert LinksAt(policies, j);
    }
  }

  lemma {:induction false} ActiveEndIsLast(policies: seq<Validated>, epoch: u64)
    ensures var n := ActiveEnd(policies, epoch);
            && (n > 0 ==> policies[n - 1].policy.effectiveEpoch <= epoch)
            && (forall i :: n <= i < |policies| ==> policies[i].policy.effectiveEpoch > epoch)
  {
    if policies != [] && policies[|policies| - 1].policy.effectiveEpoch > epoch {
      ActiveEndIsLast(policies[..|policies| - 1], epoch);
    }
  }

  /** The policies effective by an epoch are exactly those up to the active one, whose sequence counts them. */
  lemma ActiveIsHighest(policies: seq<Validated>, epoch: u64, i: nat)
    requires Linked(policies) && i < |policies|
    ensures policies[i].policy.effectiveEpoch <= epoch <==> i < ActiveEnd(policies, epoch)
    ensures ActiveAt(policies, epoch).Some? ==> ActiveAt(policies, epoch).value.policy.sequence == ActiveEnd(policies, epoch)
  {
    var n := ActiveEnd(policies, epoch);
    ActiveEndIsLast(policies, epoch);
    if i < n { EpochsDoNotRegress(policies, i, n - 1); }
    if n > 0 { SequencesCount(policies, n - 1); }
  }

  // ---- epochs ----

  /** The active policy never goes back as the epoch advances. */
  lemma ActiveNeverDecreases(policies: seq<Validated>, e: u64, f: u64)
    requires Linked(policies) && e <= f
    ensures ActiveEnd(policies, e) <= ActiveEnd(policies, f)
  {
    ActiveEndIsLast(policies, e);
    ActiveEndIsLast(policies, f);
  }

  lemma {:induction false} ActiveEndOfTail(policies: seq<Validated>, epoch: u64)
    requires policies != [] && policies[0].policy.effectiveEpoch <= epoch
    ensures ActiveEnd(policies, epoch) == 1 + ActiveEnd(policies[1..], epoch)
  {
    if |policies| > 1 && policies[|policies| - 1].policy.effectiveEpoch > epoch {
      ActiveEndOfTail(policies[..|policies| - 1], epoch);
      assert policies[..|policies| - 1][1..] == policies[1..][..|policies| - 2];
    }
  }

  ghost predicate EffectiveInOrder(policies: seq<Validated>) {
    forall i, j :: 0 <= i < j < |policies| ==> policies[i].policy.effectiveEpoch <= policies[j].policy.effectiveEpoch
  }

  lemma {:induction false} NextIsTheFirstPending(policies: seq<Validated>, epoch: u64)
    requires EffectiveInOrder(policies)
    ensures NextEffectiveAfter(policies, epoch) ==
            var n := ActiveEnd(policies, epoch); if n == |policies| then None else Some(policies[n].policy.effectiveEpoch)
  {
    if policies != [] {
      if policies[0].policy.effectiveEpoch <= epoch {
        NextIsTheFirstPending(policies[1..], epoch);
        ActiveEndOfTail(policies, epoch);
      } else {
        ActiveEndIsLast(policies, epoch);
      }
    }
  }

  /** The active policy stays the same until the announced next epoch and changes exactly there. */
  lemma NextIsWhereActiveChanges(policies: seq<Validated>, e: u64, f: u64)
    requires Linked(policies) && e <= f
    ensures ActiveEnd(policies, f) == ActiveEnd(policies, e) <==>
            NextEffectiveAfter(policies, e).None? || f < NextEffectiveAfter(policies, e).value
  {
    forall i, j | 0 <= i < j < |policies| ensures policies[i].policy.effectiveEpoch <= policies[j].policy.effectiveEpoch {
      EpochsDoNotRegress(policies, i, j);
    }
    NextIsTheFirstPending(policies, e);
    ActiveNeverDecreases(policies, e, f);
    var n := ActiveEnd(policies, e);
    if n < |policies| { ActiveIsHighest(policies, f, n); }
  }

  // ---- growth ----

  /** Before a new policy takes effect it leaves the active policy alone; from then on it is the active one. */
  lemma AppendKeepsThePast(policies: seq<Validated>, v: Validated, epoch: u64)
    ensures ActiveAt(policies + [v], epoch) == if epoch < v.policy.effectiveEpoch then ActiveAt(policies, epoch) else Some(v)
    ensures ActiveEnd(policies + [v], epoch) ==
            if epoch < v.policy.effectiveEpoch then ActiveEnd(policies, epoch) else |policies| + 1
  {
    assert (policies + [v])[..|policies|] == policies;
  }

  /** Before it takes effect a new policy can only add to the emergency list, as soon as it is issued. */
  lemma AppendOnlyDisablesMore(policies: seq<Validated>, v: Validated, epoch: u64, k: Kind)
    requires epoch < v.policy.effectiveEpoch
    ensures IsDisabledAt(policies + [v], epoch, k) <==>
            IsDisabledAt(policies, epoch, k) || DisablesEarly(v, epoch, k)
  {
    AppendKeepsThePast(policies, v, epoch);
    var longer, n := policies + [v], ActiveEnd(policies, epoch);
    assert longer[|policies|] == v && forall i :: 0 <= i < |policies| ==> longer[i] == policies[i];
    if IsDisabledAt(policies, epoch, k) && !(n > 0 && k in policies[n - 1].policy.emergencyDisabled) {
      var i :| n <= i < |policies| && DisablesEarly(policies[i], epoch, k);
      assert DisablesEarly(longer[i], epoch, k);
    }
  }

  /** Growing a chain by any number of policies effective later than the epoch. */
  lemma {:induction false} HistoryIsStable(policies: seq<Validated>, more: seq<Validated>, epoch: u64)
    requires forall i :: 0 <= i < |more| ==> epoch < more[i].policy.effectiveEpoch
    ensures ActiveAt(policies + more, epoch) == ActiveAt(policies, epoch)
    ensures forall k :: IsDisabledAt(policies, epoch, k) ==> IsDisabledAt(policies + more, epoch, k)
  {
    if more == [] {
      assert policies + more == policies;
    } else {
      var h, v := more[..|more| - 1], more[|more| - 1];
      HistoryIsStable(policies, h, epoch);
      assert policies + more == policies + h + [v];
      AppendKeepsThePast(policies + h, v, epoch);
      forall k | IsDisabledAt(policies + h, epoch, k) ensures IsDisabledAt(policies + more, epoch, k) {
        AppendOnlyDisablesMore(policies + h, v, epoch, k);
      }
    }
  }

  // ---- every reachable chain ----

  datatype Op = Append(v: Validated) | SetBindings(bindings: seq<Binding>)

  /** Apply an operation; a refused one leaves the chain as it was. */
  function Apply(c: Chain, op: Op): Chain {
    var r := match op { case Append(v) => AppendTo(c, v) case SetBindings(b) => Configure(c, b) };
    if r.Ok? then r.value else c
  }

  function RunOps(c: Chain, ops: seq<Op>): Chain {
    if ops == [] then c else Apply(RunOps(c, ops[..|ops| - 1]), ops[|ops| - 1])
  }

  /** Whatever is attempted in whatever order, the chain stays linked and its configured bindings hold in all of it. */
  lemma {:induction false} EveryChainHolds(c: Chain, ops: seq<Op>)
    requires ChainInv(c)
    ensures ChainInv(RunOps(c, ops))
    ensures c.policies <= RunOps(c, ops).policies
    ensures c.configured ==> RunOps(c, ops).configured && RunOps(c, ops).bindings == c.bindings
  {
    if ops != [] {
      var d, op := RunOps(c, ops[..|ops| - 1]), ops[|ops| - 1];
      EveryChainHolds(c, ops[..|ops| - 1]);
      match op {
        case Append(v) => AppendKeeps(d, v);
        case SetBindings(b) => ConfigureKeeps(d, b);
      }
    }
  }

  /** Once configured: each binding fits every policy enabling its kind, each enabled kind has one, and a key names at most one. */
  lemma ConfiguredBindingsHold(ops: seq<Op>, i: nat, j: nat, k: Kind)
    requires RunOps(EMPTY, ops).configured
    ensures var c := RunOps(EMPTY, ops);
            && (i < |c.bindings| && j < |c.policies| ==> AgreementError(c.bindings[i], c.policies[j]).None?)
            && (j < |c.policies| && Enables(c.policies[j], k) ==> exists b :: b in c.bindings && b.kind == k)
            && (i < j < |c.bindings| ==> !SameKey(c.bindings[i], c.bindings[j]))
  {
    var c := RunOps(EMPTY, ops);
    EveryChainHolds(EMPTY, ops);
    assert Covered(c.policies, c.bindings, k);
    if i < |c.bindings| { assert Fits(c.policies, c.bindings[i]); }
    if j < |c.policies| && Enables(c.policies[j], k) {
      assert EnabledIn(c.policies, k);
      var n :| 0 <= n < |c.bindings| && c.bindings[n].kind == k;
      assert c.bindings[n] in c.bindings;
    }
    if i < j < |c.bindings| { KeyLessIsStrict(c.bindings[i], c.bindings[j]); }
  }

  // ---- the hash chain ----

  lemma {:induction false} SameHeadSameChain(a: seq<Validated>, b: seq<Validated>)
    requires Linked(a) && Linked(b) && a != [] && b != []
    requires forall x, y :: x in a && y in b && x.digest == y.digest ==> x == y
    requires a[|a| - 1].digest == b[|b| - 1].digest
    ensures a == b
  {
    var n, m := |a| - 1, |b| - 1;
    assert LinksAt(a, n) && LinksAt(b, m) && a[n] in a && b[m] in b;
    if n > 0 && m > 0 {
      var s, t := a[..n], b[..m];
      assert s[n - 1] == a[n - 1] && t[m - 1] == b[m - 1];
      LinkedPrefix(a, n);
      LinkedPrefix(b, m);
      SameHeadSameChain(s, t);
      assert a == s + [a[n]] && b == t + [b[m]];
    } else {
      SequencesCount(a, n);
      SequencesCount(b, m);
    }
  }

  /** Validated records carry the digest of their own canonical policy, and validate to themselves. */
  lemma ValidatedCarriesItsDigest(env: PV.Env, p: PV.Policy)
    requires PV.Validate(env, p).Ok?
    ensures var v := PV.Validate(env, p).value; v.digest == env.digest(v.policy) && PV.Validate(env, v.policy) == Ok(v)
  {
    PV.CheckedRecord(env, PV.Canonical(p));
    PV.ValidationIsIdempotent(env, p);
  }

  /** A head digest pins the whole history, for a digest that does not collide on the two chains' records. */
  lemma HeadDigestPinsHistory(validate: Validator, digest: PV.Policy -> text, a: seq<Validated>, b: seq<Validated>)
    requires Linked(a) && Linked(b) && a != [] && b != [] && a[|a| - 1].digest == b[|b| - 1].digest
    requires forall v :: v in a || v in b ==> v.digest == digest(v.policy) && validate(v.policy) == Ok(v)
    requires forall x, y :: x in a && y in b && digest(x.policy) == digest(y.policy) ==> x.policy == y.policy
    ensures a == b
  {
    forall x, y | x in a && y in b && x.digest == y.digest ensures x == y {
      assert validate(x.policy) == Ok(x) && validate(y.policy) == Ok(y);
    }
    SameHeadSameChain(a, b);
  }

  lemma LinkedPrefix(a: seq<Validated>, n: nat)
    requires Linked(a) && n <= |a|
    ensures Linked(a[..n])
  {
    var s := a[..n];
    forall i | 0 <= i < n ensures LinksAt(s, i) {
      assert LinksAt(a, i) && Before(s, i) == Before(a, i) && s[i] == a[i];
    }
  }

  // ---- one go or step by step ----

  predicate AllValidate(validate: Validator, records: seq<PV.Policy>) {
    forall i :: 0 <= i < |records| ==> validate(records[i]).Ok?
  }

  function ValidatedAll(validate: Validator, records: seq<PV.Policy>): seq<Validated>
    requires AllValidate(validate, records)
  {
    seq(|records|, i requires 0 <= i < |records| => validate(records[i]).value)
  }

  lemma EnabledInLonger(policies: seq<Validated>, longer: seq<Validated>, k: Kind)
    requires policies <= longer && EnabledIn(policies, k)
    ensures EnabledIn(longer, k)
  {
    var i :| 0 <= i < |policies| && Enables(policies[i], k);
    assert Enables(longer[i], k);
  }

  /** Bindings that hold in a chain hold in every part of it that already enables their kinds. */
  lemma HoldsBetween(first: seq<Validated>, part: seq<Validated>, all: seq<Validated>, bindings: seq<Binding>)
    requires first <= part <= all && BindingsHold(all, bindings)
    requires forall i :: 0 <= i < |bindings| ==> EnabledIn(first, bindings[i].kind)
    ensures BindingsHold(part, bindings)
  {
    forall i | 0 <= i < |bindings| ensures Fits(part, bindings[i]) {
      assert Fits(all, bindings[i]);
      forall j | 0 <= j < |part| ensures AgreementError(bindings[i], part[j]).None? { assert part[j] == all[j]; }
      EnabledInLonger(first, part, bindings[i].kind);
    }
    forall k ensures Covered(part, bindings, k) {
      if EnabledIn(part, k) {
        EnabledInLonger(part, all, k);
        assert Covered(all, bindings, k);
      }
    }
  }

  /** A run of appends succeeds exactly when all records validate, the result is linked and the bindings hold in it. */
  lemma {:induction false} AppendAllMeans(validate: Validator, c: Chain, records: seq<PV.Policy>)
    requires ChainInv(c)
    ensures AppendAll(validate, c, records).Ok? <==>
            && AllValidate(validate, records)
            && Linked(c.policies + ValidatedAll(validate, records))
            && (c.configured ==> BindingsHold(c.policies + ValidatedAll(validate, records), c.bindings))
    ensures AppendAll(validate, c, records).Ok? ==>
              && ChainInv(AppendAll(validate, c, records).value)
              && AppendAll(validate, c, records).value == c.(policies := c.policies + ValidatedAll(validate, records))
  {
    if records == [] {
      assert AllValidate(validate, records) && c.policies + ValidatedAll(validate, records) == c.policies;
    } else {
      var h, p := records[..|records| - 1], records[|records| - 1];
      AppendAllMeans(validate, c, h);
      assert records == h + [p];
      if AllValidate(validate, records) {
        assert AllValidate(validate, h);
        var most, all := c.policies + ValidatedAll(validate, h), c.policies + ValidatedAll(validate, records);
        var v := validate(p).value;
        assert all == most + [v];
        LinkedGrows(most, v);
        if c.configured && BindingsHold(all, c.bindings) {
          forall i | 0 <= i < |c.bindings| ensures EnabledIn(c.policies, c.bindings[i].kind) { assert Fits(c.policies, c.bindings[i]); }
          HoldsBetween(c.policies, most, all, c.bindings);
        }
        if AppendAll(validate, c, h).Ok? { AppendKeeps(AppendAll(validate, c, h).value, v); }
      } else if AppendAll(validate, c, h).Ok? {
        assert forall i :: 0 <= i < |h| ==> validate(records[i]) == validate(h[i]);
        assert validate(p).Err?;
      }
    }
  }

  /** Append some records, configure the bindings, append the rest. */
  function Incremental(validate: Validator, early: seq<PV.Policy>, bindings: seq<Binding>, late: seq<PV.Policy>): Result<Chain, Error> {
    match AppendAll(validate, EMPTY, early)
    case Err(e) => Err(e)
    case Ok(c) => match Configure(c, bindings)
      case Err(e) => Err(e)
      case Ok(d) => AppendAll(validate, d, late)
  }

  /** A catalog without policies carries no list at all. */
  function Catalog(records: seq<PV.Policy>): Option<seq<PV.Policy>> { if records == [] then None else Some(records) }

  lemma ValidatedParts(validate: Validator, early: seq<PV.Policy>, late: seq<PV.Policy>)
    ensures AllValidate(validate, early + late) <==> AllValidate(validate, early) && AllValidate(validate, late)
    ensures AllValidate(validate, early + late) ==>
              ValidatedAll(validate, early + late) == ValidatedAll(validate, early) + ValidatedAll(validate, late)
  {
    var all := early + late;
    forall i | 0 <= i < |early| ensures all[i] == early[i] { }
    forall i | 0 <= i < |late| ensures all[|early| + i] == late[i] { }
    if AllValidate(validate, all) {
      forall i | 0 <= i < |early| ensures validate(early[i]).Ok? { assert validate(all[i]).Ok?; }
      forall i | 0 <= i < |late| ensures validate(late[i]).Ok? { assert validate(all[|early| + i]).Ok?; }
    }
  }

  lemma IncrementalMeans(validate: Validator, early: seq<PV.Policy>, bindings: seq<Binding>, late: seq<PV.Policy>)
    ensures Incremental(validate, early, bindings, late).Ok? <==>
            && AllValidate(validate, early) && AllValidate(validate, late)
            && var first, all := ValidatedAll(validate, early), ValidatedAll(validate, early) + ValidatedAll(validate, late);
               Linked(all) && BindingsHold(first, bindings) && BindingsHold(all, bindings)
    ensures Incremental(validate, early, bindings, late).Ok? ==>
              Incremental(validate, early, bindings, late).value ==
              Chain(ValidatedAll(validate, early) + ValidatedAll(validate, late), bindings, true)
  {
    AppendAllMeans(validate, EMPTY, early);
    if AllValidate(validate, early) {
      var first := ValidatedAll(validate, early);
      assert EMPTY.policies + first == first;
      if Linked(first) {
        ConfigureKeeps(Chain(first, [], false), bindings);
        if BindingsHold(first, bindings) { AppendAllMeans(validate, Chain(first, bindings, true), late); }
      } else if AllValidate(validate, late) && Linked(first + ValidatedAll(validate, late)) {
        LinkedPrefix(first + ValidatedAll(validate, late), |first|);
      }
    }
  }

  lemma BatchMeans(validate: Validator, records: seq<PV.Policy>, bindings: seq<Binding>)
    ensures FromCatalog(validate, Catalog(records), bindings).Ok? <==>
            && AllValidate(validate, records)
            && Linked(ValidatedAll(validate, records))
            && BindingsHold(ValidatedAll(validate, records), bindings)
    ensures FromCatalog(validate, Catalog(records), bindings).Ok? ==>
              FromCatalog(validate, Catalog(records), bindings).value == Chain(ValidatedAll(validate, records), bindings, true)
  {
    AppendAllMeans(validate, EMPTY, records);
    if AllValidate(validate, records) {
      var all := ValidatedAll(validate, records);
      assert EMPTY.policies + all == all;
      if Linked(all) { ConfigureKeeps(Chain(all, [], false), bindings); }
    }
  }

  /**
   * Building step by step succeeds exactly when building in one go does and every bound kind was already enabled
   * when the bindings were configured; the two then give the same chain.
   */
  lemma IncrementalIsBatch(validate: Validator, early: seq<PV.Policy>, bindings: seq<Binding>, late: seq<PV.Policy>)
    ensures Incremental(validate, early, bindings, late).Ok? <==>
            && FromCatalog(validate, Catalog(early + late), bindings).Ok?
            && AllValidate(validate, early)
            && (forall i :: 0 <= i < |bindings| ==> EnabledIn(ValidatedAll(validate, early), bindings[i].kind))
    ensures Incremental(validate, early, bindings, late).Ok? ==>
              Incremental(validate, early, bindings, late) == FromCatalog(validate, Catalog(early + late), bindings)
  {
    IncrementalMeans(validate, early, bindings, late);
    BatchMeans(validate, early + late, bindings);
    ValidatedParts(validate, early, late);
    if AllValidate(validate, early + late) {
      var first, all := ValidatedAll(validate, early), ValidatedAll(validate, early + late);
      if BindingsHold(first, bindings) {
        forall i | 0 <= i < |bindings| ensures EnabledIn(first, bindings[i].kind) { assert Fits(first, bindings[i]); }
      } else if BindingsHold(all, bindings) && forall i :: 0 <= i < |bindings| ==> EnabledIn(first, bindings[i].kind) {
        HoldsBetween(first, first, all, bindings);
      }
    }
  }
}
