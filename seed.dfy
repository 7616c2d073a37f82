/**
 * The premium-rate seeding script: for every active insurance company and
 * each of the four cover types, add a default rate row unless the company
 * already has one for that cover type, counting rows created and skipped,
 * then commit everything at once (or roll everything back).
 */
module Seed {

  datatype Company = Company(id: nat, name: string, isActive: bool)

  /** The rate columns of a premium-rate row (amounts in KES, rates in percent). */
  datatype RateConfig = RateConfig(
    comprehensiveMinRate: real,
    comprehensiveMaxRate: real,
    comprehensiveDefaultRate: real,
    tpoFlatRate: real,
    tpftBaseRate: real,
    tpftPercentage: real,
    psvTaxiRate: real,
    psvMatatu14Rate: real,
    psvMatatu25Rate: real,
    psvBusRate: real)

  datatype PremiumRate = PremiumRate(companyId: nat, coverType: string, config: RateConfig, isActive: bool)

  /** The default configuration of each cover type, in the order the script visits them. */
  const RateConfigs: seq<(string, RateConfig)> := [
    ("Comprehensive",
      RateConfig(4.0, 7.0, 5.5, 0.0, 0.0, 0.0, 0.0, 0.0, 0.0, 0.0)),
    ("Third-Party Only",
      RateConfig(0.0, 0.0, 0.0, 8000.0, 0.0, 0.0, 0.0, 0.0, 0.0, 0.0)),
    ("Third-Party Fire & Theft",
      RateConfig(0.0, 0.0, 0.0, 0.0, 8000.0, 1.5, 0.0, 0.0, 0.0, 0.0)),
    ("PSV",
      RateConfig(0.0, 0.0, 0.0, 0.0, 0.0, 0.0, 25000.0, 70000.0, 95000.0, 135000.0))
  ]

  const CoverTypes: seq<string> := ["Comprehensive", "Third-Party Only", "Third-Party Fire & Theft", "PSV"]

  /** `InsuranceCompany.query.filter_by(is_active=True).all()`, in table order. */
  function ActiveCompanies(companies: seq<Company>): (r: seq<Company>)
    ensures forall c :: c in r <==> c in companies && c.isActive
    ensures |r| <= |companies|
    ensures r == [] <==> forall i :: 0 <= i < |companies| ==> !companies[i].isActive
    ensures forall c :: multiset(r)[c] == if c.isActive then multiset(companies)[c] else 0
  {
    if companies == [] then []
    else
      var rest := ActiveCompanies(companies[1..]);
      assert companies == [companies[0]] + companies[1..];
      assert forall c :: c in companies <==> c == companies[0] || c in companies[1..];
      if companies[0].isActive then [companies[0]] + rest else rest
  }

  /** Some row of `rates` is for that company and cover type. */
  predicate HasRate(rates: seq<PremiumRate>, companyId: nat, coverType: string) {
    exists i :: 0 <= i < |rates| && rates[i].companyId == companyId && rates[i].coverType == coverType
  }

  /** The rows of the session (stored and pending) and the two counters of the run. */
  datatype Tally = Tally(rates: seq<PremiumRate>, created: nat, skipped: nat)

  /** One step of the inner loop: skip a cover type the company has, add a row for one it lacks. */
  function Visit(t: Tally, c: Company, entry: (string, RateConfig)): Tally {
    if HasRate(t.rates, c.id, entry.0) then Tally(t.rates, t.created, t.skipped + 1)
    else Tally(t.rates + [PremiumRate(c.id, entry.0, entry.1, true)], t.created + 1, t.skipped)
  }

  /** The inner loop over the configurations `entries`, for one company. */
  function SeedCompany(t: Tally, c: Company, entries: seq<(string, RateConfig)>): Tally
  {
    if entries == [] then t
    else Visit(SeedCompany(t, c, entries[..|entries| - 1]), c, entries[|entries| - 1])
  }

  /** The outer loop over `companies`. */
  function SeedCompanies(t: Tally, companies: seq<Company>): Tally
  {
    if companies == [] then t
    else SeedCompany(SeedCompanies(t, companies[..|companies| - 1]), companies[|companies| - 1], RateConfigs)
  }

  /** What the script reports: nothing to do, the counters of a committed run, or a rolled-back run. */
  datatype SeedOutcome = NoCompanies | Seeded(created: nat, skipped: nat) | RolledBack(created: nat, skipped: nat)

  /**
   * The whole script on the rate table `rates`: with no active company it
   * stops; otherwise it runs both loops and, when the commit succeeds, stores
   * the new rows; a failed commit rolls back to `rates`.
   */
  function SeedRun(rates: seq<PremiumRate>, companies: seq<Company>, commitSucceeds: bool)
    : (seq<PremiumRate>, SeedOutcome)
  {
    var active := ActiveCompanies(companies);
    if active == [] then (rates, NoCompanies)
    else
      var t := SeedCompanies(Tally(rates, 0, 0), active);
      if commitSucceeds then (t.rates, Seeded(t.created, t.skipped))
      else (rates, RolledBack(t.created, t.skipped))
  }

  /** The inner loop extended by one configuration is one more visit. */
  lemma SeedCompanyStep(t: Tally, c: Company, entries: seq<(string, RateConfig)>, j: nat)
    requires j < |entries|
    ensures SeedCompany(t, c, entries[..j + 1]) == Visit(SeedCompany(t, c, entries[..j]), c, entries[j])
  {
    assert entries[..j + 1][..j] == entries[..j];
  }

  /** The outer loop extended by one company is one more inner loop. */
  lemma SeedCompaniesStep(t: Tally, companies: seq<Company>, i: nat)
    requires i < |companies|
    ensures SeedCompanies(t, companies[..i + 1]) == SeedCompany(SeedCompanies(t, companies[..i]), companies[i], RateConfigs)
  {
    assert companies[..i + 1][..i] == companies[..i];
  }

  /** The premium-rate table the script writes to. */
  class PremiumRateTable {
    var rates: seq<PremiumRate>

    constructor (rates: seq<PremiumRate>)
      ensures this.rates == rates
    {
      this.rates := rates;
    }

    /** `seed_premium_rates`, with the outcome of the final commit given as `commitSucceeds`. */
    method SeedPremiumRates(companies: seq<Company>, commitSucceeds: bool) returns (out: SeedOutcome)
      modifies this
      ensures (rates, out) == SeedRun(old(rates), companies, commitSucceeds)
    {
      var active := ActiveCompanies(companies);
      if active == [] {
        return NoCompanies;
      }
      var stored := rates;
      var session := rates;
      var created, skipped := 0, 0;
      var i := 0;
      while i < |active|
        invariant 0 <= i <= |active|
        invariant rates == stored
        invariant Tally(session, created, skipped) == SeedCompanies(Tally(stored, 0, 0), active[..i])
      {
        var company := active[i];
        ghost var before := Tally(session, created, skipped);
        var j := 0;
        while j < |RateConfigs|
          invariant 0 <= j <= |RateConfigs|
          invariant rates == stored
          invariant Tally(session, created, skipped) == SeedCompany(before, company, RateConfigs[..j])
        {
          var (coverType, config) := RateConfigs[j];
          SeedCompanyStep(before, company, RateConfigs, j);
          if HasRate(session, company.id, coverType) {
            skipped := skipped + 1;
          } else {
            session := session + [PremiumRate(company.id, coverType, config, true)];
            created := created + 1;
          }
          j := j + 1;
        }
        assert RateConfigs[..j] == RateConfigs;
        SeedCompaniesStep(Tally(stored, 0, 0), active, i);
        i := i + 1;
      }
      assert active[..i] == active;
      if commitSucceeds {
        rates := session;
        out := Seeded(created, skipped);
      } else {
        out := RolledBack(created, skipped);
      }
    }
  }

  // ---------------------------------------------------------------------------
  // Properties of a run

  /** Without active companies nothing is created and the table is unchanged. */
  lemma NoActiveCompaniesNoChange(rates: seq<PremiumRate>, companies: seq<Company>, commitSucceeds: bool)
    requires forall i :: 0 <= i < |companies| ==> !companies[i].isActive
    ensures SeedRun(rates, companies, commitSucceeds) == (rates, NoCompanies)
  {
  }

  /** A failed commit leaves the table as it was. */
  lemma RollbackKeepsTable(rates: seq<PremiumRate>, companies: seq<Company>)
    ensures SeedRun(rates, companies, false).0 == rates
  {
  }

  lemma {:induction false} SeedCompanyFacts(t: Tally, c: Company, entries: seq<(string, RateConfig)>)
    ensures var t' := SeedCompany(t, c, entries);
      && t'.created + t'.skipped == t.created + t.skipped + |entries|
      && t'.created >= t.created
      && |t'.rates| == |t.rates| + t'.created - t.created
      && t'.rates[..|t.rates|] == t.rates
      && (forall k :: |t.rates| <= k < |t'.rates| ==>
            t'.rates[k].companyId == c.id && t'.rates[k].isActive &&
            (t'.rates[k].coverType, t'.rates[k].config) in entries)
      && (forall e :: e in entries ==> HasRate(t'.rates, c.id, e.0))
  {
    if entries != [] {
      var init := entries[..|entries| - 1];
      var last := entries[|entries| - 1];
      SeedCompanyFacts(t, c, init);
      var m := SeedCompany(t, c, init);
      var t' := Visit(m, c, last);
      assert t'.rates[..|m.rates|] == m.rates;
      assert t'.rates[..|t.rates|] == m.rates[..|t.rates|];
      forall e | e in entries ensures HasRate(t'.rates, c.id, e.0) {
        if e in init {
          var i :| 0 <= i < |m.rates| && m.rates[i].companyId == c.id && m.rates[i].coverType == e.0;
          assert t'.rates[i] == m.rates[i];
        } else {
          assert e == last;
          if !HasRate(m.rates, c.id, e.0) {
            assert t'.rates[|m.rates|].coverType == e.0;
          }
        }
      }
      forall k | |t.rates| <= k < |t'.rates|
        ensures t'.rates[k].companyId == c.id && t'.rates[k].isActive
        ensures (t'.rates[k].coverType, t'.rates[k].config) in entries
      {
        if k < |m.rates| {
          assert t'.rates[k] == m.rates[k];
          assert (m.rates[k].coverType, m.rates[k].config) in init;
        }
      }
    }
  }

  /**
   * The two loops only append: the counters add up to four per company and
   * the rows already present stay as they were.
   */
  lemma {:induction false} SeedCompaniesAppends(t: Tally, companies: seq<Company>)
    ensures var t' := SeedCompanies(t, companies);
      && t'.created + t'.skipped == t.created + t.skipped + |CoverTypes| * |companies|
      && t'.created >= t.created
      && |t'.rates| == |t.rates| + t'.created - t.created
      && t'.rates[..|t.rates|] == t.rates
  {
    if companies != [] {
      var init := companies[..|companies| - 1];
      SeedCompaniesAppends(t, init);
      var m := SeedCompanies(t, init);
      SeedCompanyFacts(m, companies[|companies| - 1], RateConfigs);
      var t' := SeedCompanies(t, companies);
      assert t'.rates[..|t.rates|] == m.rates[..|m.rates|][..|t.rates|];
    }
  }

  /** Every row the two loops add is active, belongs to one of the companies and carries a default configuration. */
  lemma {:induction false} SeedCompaniesNewRows(t: Tally, companies: seq<Company>)
    ensures var t' := SeedCompanies(t, companies);
      forall k :: |t.rates| <= k < |t'.rates| ==>
        t'.rates[k].isActive &&
        (t'.rates[k].coverType, t'.rates[k].config) in RateConfigs &&
        exists c :: c in companies && c.id == t'.rates[k].companyId
  {
    if companies != [] {
      var init := companies[..|companies| - 1];
      var last := companies[|companies| - 1];
      SeedCompaniesNewRows(t, init);
      SeedCompaniesAppends(t, init);
      var m := SeedCompanies(t, init);
      SeedCompanyFacts(m, last, RateConfigs);
      var t' := SeedCompany(m, last, RateConfigs);
      forall k | |t.rates| <= k < |t'.rates|
        ensures t'.rates[k].isActive && (t'.rates[k].coverType, t'.rates[k].config) in RateConfigs
        ensures exists c :: c in companies && c.id == t'.rates[k].companyId
      {
        if k < |m.rates| {
          assert t'.rates[k] == t'.rates[..|m.rates|][k] == m.rates[k];
          var c :| c in init && c.id == m.rates[k].companyId;
          assert c in companies;
        } else {
          assert last in companies;
        }
      }
    }
  }

  /** After the two loops every company has a row for every cover type. */
  lemma {:induction false} SeedCompaniesCovers(t: Tally, companies: seq<Company>)
    ensures var t' := SeedCompanies(t, companies);
      forall c, ct :: c in companies && ct in CoverTypes ==> HasRate(t'.rates, c.id, ct)
  {
    if companies != [] {
      var init := companies[..|companies| - 1];
      var last := companies[|companies| - 1];
      SeedCompaniesCovers(t, init);
      var m := SeedCompanies(t, init);
      SeedCompanyFacts(m, last, RateConfigs);
      var t' := SeedCompany(m, last, RateConfigs);
      forall c, ct | c in companies && ct in CoverTypes ensures HasRate(t'.rates, c.id, ct) {
        var n :| 0 <= n < |CoverTypes| && CoverTypes[n] == ct;
        assert RateConfigs[n].0 == ct && RateConfigs[n] in RateConfigs;
        if c in init {
          var i :| 0 <= i < |m.rates| && m.rates[i].companyId == c.id && m.rates[i].coverType == ct;
          assert t'.rates[i] == m.rates[i];
        } else {
          assert c == last;
        }
      }
    }
  }

  /** After a committed run, every active company has a rate for each of the four cover types. */
  lemma SeedCoversEveryActiveCompany(rates: seq<PremiumRate>, companies: seq<Company>, c: Company, ct: string)
    requires c in companies && c.isActive && ct in CoverTypes
    ensures HasRate(SeedRun(rates, companies, true).0, c.id, ct)
  {
    SeedCompaniesCovers(Tally(rates, 0, 0), ActiveCompanies(companies));
  }

  /** In a run that gets past the company check, created plus skipped is four per active company. */
  lemma SeedCountsAddUp(rates: seq<PremiumRate>, companies: seq<Company>, commitSucceeds: bool)
    requires SeedRun(rates, companies, commitSucceeds).1 != NoCompanies
    ensures var out := SeedRun(rates, companies, commitSucceeds).1;
      out.created + out.skipped == 4 * |ActiveCompanies(companies)|
  {
    SeedCompaniesAppends(Tally(rates, 0, 0), ActiveCompanies(companies));
  }

  /**
   * A committed run only appends: the rows that were there are untouched, and
   * each new row is active, carries the default configuration of its cover
   * type and belongs to an active company whose key differs from every
   * inactive company's (so inactive companies never receive rates).
   */
  lemma SeedOnlyAppendsDefaultsForActive(rates: seq<PremiumRate>, companies: seq<Company>)
    requires forall i, j :: 0 <= i < j < |companies| ==> companies[i].id != companies[j].id
    ensures var after := SeedRun(rates, companies, true).0;
      && |rates| <= |after|
      && after[..|rates|] == rates
      && forall k :: |rates| <= k < |after| ==>
           && after[k].isActive
           && (after[k].coverType, after[k].config) in RateConfigs
           && (forall c :: c in companies && c.id == after[k].companyId ==> c.isActive)
  {
    var active := ActiveCompanies(companies);
    if active != [] {
      SeedCompaniesAppends(Tally(rates, 0, 0), active);
      SeedCompaniesNewRows(Tally(rates, 0, 0), active);
      var after := SeedRun(rates, companies, true).0;
      forall k, c | |rates| <= k < |after| && c in companies && c.id == after[k].companyId
        ensures c.isActive
      {
        var a :| a in active && a.id == after[k].companyId;
        var p :| 0 <= p < |companies| && companies[p] == a;
        var q :| 0 <= q < |companies| && companies[q] == c;
      }
    }
  }

  lemma {:induction false} SeedCompanyWhenCovered(t: Tally, c: Company, entries: seq<(string, RateConfig)>)
    requires forall e :: e in entries ==> HasRate(t.rates, c.id, e.0)
    ensures SeedCompany(t, c, entries) == Tally(t.rates, t.created, t.skipped + |entries|)
  {
    if entries != [] {
      SeedCompanyWhenCovered(t, c, entries[..|entries| - 1]);
      assert entries[|entries| - 1] in entries;
    }
  }

  lemma {:induction false} SeedCompaniesWhenCovered(t: Tally, companies: seq<Company>)
    requires forall c, ct :: c in companies && ct in CoverTypes ==> HasRate(t.rates, c.id, ct)
    ensures SeedCompanies(t, companies) == Tally(t.rates, t.created, t.skipped + |CoverTypes| * |companies|)
  {
    if companies != [] {
      var init := companies[..|companies| - 1];
      var last := companies[|companies| - 1];
      forall c, ct | c in init && ct in CoverTypes ensures HasRate(t.rates, c.id, ct) {
        assert c in companies;
      }
      SeedCompaniesWhenCovered(t, init);
      forall e | e in RateConfigs ensures HasRate(t.rates, last.id, e.0) {
        assert e.0 in CoverTypes;
        assert last in companies;
      }
      SeedCompanyWhenCovered(SeedCompanies(t, init), last, RateConfigs);
    }
  }

  /**
   * Idempotence: running the script again after a committed run creates
   * nothing, skips every (company, cover type) pair and leaves the table as it is.
   */
  lemma SeedIdempotent(rates: seq<PremiumRate>, companies: seq<Company>)
    requires ActiveCompanies(companies) != []
    ensures var first := SeedRun(rates, companies, true).0;
      SeedRun(first, companies, true) == (first, Seeded(0, 4 * |ActiveCompanies(companies)|))
  {
    var active := ActiveCompanies(companies);
    var first := SeedRun(rates, companies, true).0;
    SeedCompaniesCovers(Tally(rates, 0, 0), active);
    SeedCompaniesWhenCovered(Tally(first, 0, 0), active);
  }

  /** No row at or after position `n` repeats the (company, cover type) pair of an earlier row. */
  predicate FreshFrom(rates: seq<PremiumRate>, n: nat) {
    forall i, j :: 0 <= i < j < |rates| && n <= j ==>
      rates[i].companyId != rates[j].companyId || rates[i].coverType != rates[j].coverType
  }

  /** No two rows for the same company and cover type. */
  predicate UniquePairs(rates: seq<PremiumRate>) {
    FreshFrom(rates, 0)
  }

  lemma {:induction false} SeedCompanyFresh(t: Tally, c: Company, entries: seq<(string, RateConfig)>, n: nat)
    requires n <= |t.rates| && FreshFrom(t.rates, n)
    ensures FreshFrom(SeedCompany(t, c, entries).rates, n)
  {
    if entries != [] {
      SeedCompanyFresh(t, c, entries[..|entries| - 1], n);
    }
  }

  /** The two loops add a row only for a (company, cover type) pair that has none yet. */
  lemma {:induction false} SeedCompaniesFresh(t: Tally, companies: seq<Company>, n: nat)
    requires n <= |t.rates| && FreshFrom(t.rates, n)
    ensures FreshFrom(SeedCompanies(t, companies).rates, n)
  {
    if companies != [] {
      var init := companies[..|companies| - 1];
      SeedCompaniesFresh(t, init, n);
      SeedCompaniesAppends(t, init);
      SeedCompanyFresh(SeedCompanies(t, init), companies[|companies| - 1], RateConfigs, n);
    }
  }

  /**
   * A committed run inserts a rate for a (company, cover type) pair only when
   * the table had none for it, and it never adds two rows for the same pair.
   */
  lemma SeedInsertsOnlyAbsent(rates: seq<PremiumRate>, companies: seq<Company>)
    ensures var after := SeedRun(rates, companies, true).0;
      forall k :: |rates| <= k < |after| ==> !HasRate(rates, after[k].companyId, after[k].coverType)
  {
    var active := ActiveCompanies(companies);
    if active != [] {
      SeedCompaniesAppends(Tally(rates, 0, 0), active);
      SeedCompaniesFresh(Tally(rates, 0, 0), active, |rates|);
      var after := SeedRun(rates, companies, true).0;
      forall k, i | |rates| <= k < |after| && 0 <= i < |rates|
        ensures rates[i].companyId != after[k].companyId || rates[i].coverType != after[k].coverType
      {
        assert after[i] == after[..|rates|][i] == rates[i];
      }
    }
  }

  /** A committed run keeps a table free of duplicate (company, cover type) rows. */
  lemma SeedKeepsPairsUnique(rates: seq<PremiumRate>, companies: seq<Company>)
    requires UniquePairs(rates)
    ensures UniquePairs(SeedRun(rates, companies, true).0)
  {
    var active := ActiveCompanies(companies);
    if active != [] {
      SeedCompaniesAppends(Tally(rates, 0, 0), active);
      assert FreshFrom(rates, 0);
      SeedCompaniesFresh(Tally(rates, 0, 0), active, 0);
    }
  }
}
