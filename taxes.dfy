/** The tax calculator and the tax table (backend/src/routes/taxes.ts):
    the DAS monthly and MEI annual period keys, their revenue windows, the
    DAS bracket rate and the MEI cap, due dates, the upsert of a Tax record
    keyed by (type, period), and the reminders query. */
module Taxes {

  import opened Rows
  import opened Text
  import opened Calendar
  import opened Ledger

  /** A stored Tax record; `kind` is the `type` column ('DAS' or 'MEI'). */
  datatype Tax = Tax(
    id: int,
    kind: string,
    period: string,
    revenue: real,
    taxAmount: real,
    status: string,
    dueDate: int)

  // ---------------------------------------------------------------------------
  // Period keys
  // ---------------------------------------------------------------------------

  /** The DAS period: the year, a hyphen, and the month left-padded with '0' to two characters;
      for a month from 1 to 12 the key ends in exactly two month digits. */
  function DasPeriod(year: int, month: int): (key: string)
    ensures 1 <= month <= 12 ==> key == IntToString(year) + "-" + [DigitChar(month / 10), DigitChar(month % 10)]
  {
    var digits := PadStart(IntToString(month), 2, '0');
    assert 1 <= month <= 12 ==> digits == [DigitChar(month / 10), DigitChar(month % 10)] by {
      if 1 <= month <= 12 {
        TwoDigits(month);
      }
    }
    IntToString(year) + "-" + digits
  }

  /** The MEI period: the year alone, which reads back as the year. */
  function MeiPeriod(year: int): (key: string)
    ensures ParseInt(key) == Some(year)
  {
    IntToStringRoundTrip(year);
    IntToString(year)
  }

  /** March 2024 is "2024-03". */
  lemma DasPeriodMarch()
    ensures DasPeriod(2024, 3) == "2024-03"
  {
    Decimal2024();
    assert [DigitChar(0), DigitChar(3)] == "03";
  }

  /** December 2024 is "2024-12". */
  lemma DasPeriodDecember()
    ensures DasPeriod(2024, 12) == "2024-12"
  {
    Decimal2024();
    assert [DigitChar(1), DigitChar(2)] == "12";
  }

  /** Reads a DAS period key back into (year, month). */
  function ParseDasPeriod(key: string): Option<(int, int)>
  {
    if |key| >= 4 && key[|key| - 3] == '-' && IsDigit(key[|key| - 2]) && IsDigit(key[|key| - 1]) then
      match ParseInt(key[..|key| - 3])
      case Some(y) => Some((y, 10 * DigitValue(key[|key| - 2]) + DigitValue(key[|key| - 1])))
      case None => None
    else None
  }

  lemma ParseDasPeriodParts(y: string, d1: char, d2: char)
    requires IsDigit(d1) && IsDigit(d2) && |y| >= 1
    ensures ParseDasPeriod(y + "-" + [d1, d2]) ==
            if ParseInt(y).Some? then Some((ParseInt(y).value, 10 * DigitValue(d1) + DigitValue(d2))) else None
  {
    var key := y + "-" + [d1, d2];
    assert key[..|key| - 3] == y;
  }

  lemma ParseDasDigits(year: int, month: int)
    requires 1 <= month <= 12
    ensures ParseDasPeriod(IntToString(year) + "-" + [DigitChar(month / 10), DigitChar(month % 10)]) == Some((year, month))
  {
    var d1, d2 := DigitChar(month / 10), DigitChar(month % 10);
    ParseDasPeriodParts(IntToString(year), d1, d2);
    IntToStringRoundTrip(year);
    assert DigitValue(d1) == month / 10 && DigitValue(d2) == month % 10;
  }

  lemma DasPeriodRoundTrip(year: int, month: int)
    requires 1 <= month <= 12
    ensures ParseDasPeriod(DasPeriod(year, month)) == Some((year, month))
  {
    ParseDasDigits(year, month);
  }

  /** Distinct (year, month) periods get distinct keys, so one DAS record
      per key is one DAS record per month. */
  lemma DasPeriodInjective(y1: int, m1: int, y2: int, m2: int)
    requires 1 <= m1 <= 12 && 1 <= m2 <= 12
    requires DasPeriod(y1, m1) == DasPeriod(y2, m2)
    ensures y1 == y2 && m1 == m2
  {
    DasPeriodRoundTrip(y1, m1);
    DasPeriodRoundTrip(y2, m2);
  }

  // ---------------------------------------------------------------------------
  // Revenue windows and revenue
  // ---------------------------------------------------------------------------

  /** `[new Date(year, month - 1, 1), new Date(year, month, 1))`. */
  function DasWindow(year: int, month: int): (w: (CivilDate, CivilDate))
    ensures w.0.day == 1 && w.1.day == 1
    ensures 12 * w.1.year + w.1.month == 12 * w.0.year + w.0.month + 1
  {
    (JsDate(year, month - 1, 1), JsDate(year, month, 1))
  }

  /** `[new Date(year, 0, 1), new Date(year + 1, 0, 1))`. */
  function MeiWindow(year: int): (CivilDate, CivilDate)
  {
    (JsDate(year, 0, 1), JsDate(year + 1, 0, 1))
  }

  /** For a four-digit year (or any year `new Date` does not shift), the DAS
      window starts on the first day of the month and ends on the first day of
      the next month, December rolling over into January of the next year. */
  lemma DasWindowBounds(year: int, month: int)
    requires 1 <= month <= 12 && !(0 <= year <= 99)
    ensures DasWindow(year, month).0 == CivilDate(year, month, 1)
    ensures DasWindow(year, month).1 == if month == 12 then CivilDate(year + 1, 1, 1) else CivilDate(year, month + 1, 1)
  {
    JsDateMonth(year, month - 1, 1);
    JsDateMonth(year, month, 1);
  }

  /** The MEI window runs from 1 January to 1 January of the next year: from
      the start of January's DAS window to the end of December's. */
  lemma MeiWindowBounds(year: int)
    requires year >= 100 || year <= -2
    ensures MeiWindow(year) == (CivilDate(year, 1, 1), CivilDate(year + 1, 1, 1))
    ensures MeiWindow(year).0 == DasWindow(year, 1).0 && MeiWindow(year).1 == DasWindow(year, 12).1
  {
    JsDateMonth(year, 0, 1);
    JsDateMonth(year + 1, 0, 1);
    DasWindowBounds(year, 1);
    DasWindowBounds(year, 12);
  }

  /** `date: { gte: start, lt: end }` with both ends turned into instants. */
  predicate InWindow(t: int, w: (CivilDate, CivilDate), toInstant: CivilDate -> int)
  {
    toInstant(w.0) <= t < toInstant(w.1)
  }

  /** Consecutive DAS windows share their boundary and never overlap: an
      instant is counted in at most one of two consecutive months. */
  lemma DasWindowsAdjoin(year: int, month: int, t: int, toInstant: CivilDate -> int)
    requires (year >= 100 || year <= -2) && 1 <= month <= 12
    ensures month < 12 ==> DasWindow(year, month).1 == DasWindow(year, month + 1).0
    ensures month == 12 ==> DasWindow(year, 12).1 == DasWindow(year + 1, 1).0
    ensures !(InWindow(t, DasWindow(year, month), toInstant) &&
              InWindow(t, if month < 12 then DasWindow(year, month + 1) else DasWindow(year + 1, 1), toInstant))
  {
    DasWindowBounds(year, month);
    if month < 12 {
      DasWindowBounds(year, month + 1);
    } else {
      DasWindowBounds(year + 1, 1);
    }
  }

  /** Income transactions dated inside the window. */
  function IncomeInWindow(txs: seq<Transaction>, w: (CivilDate, CivilDate), toInstant: CivilDate -> int): seq<Transaction>
  {
    Where(txs, (t: Transaction) => IsIncome(t) && InWindow(t.date, w, toInstant))
  }

  /** Invoices dated inside the window. */
  function InvoicesInWindow(invoices: seq<Invoice>, w: (CivilDate, CivilDate), toInstant: CivilDate -> int): seq<Invoice>
  {
    Where(invoices, (i: Invoice) => InWindow(i.date, w, toInstant))
  }

  /** `(revenueTransactions._sum.amount || 0) + (revenueInvoices._sum.total || 0)`. */
  function WindowRevenue(txs: seq<Transaction>, invoices: seq<Invoice>, w: (CivilDate, CivilDate), toInstant: CivilDate -> int): (r: real)
    ensures r == Sum(IncomeInWindow(txs, w, toInstant), Amount) + Sum(InvoicesInWindow(invoices, w, toInstant), Total)
  {
    Aggregate(IncomeInWindow(txs, w, toInstant), Amount).GetOr(0.0)
      + Aggregate(InvoicesInWindow(invoices, w, toInstant), Total).GetOr(0.0)
  }

  // ---------------------------------------------------------------------------
  // Rates
  // ---------------------------------------------------------------------------

  /** The simplified Simples Nacional bracket rate; upper bounds are included. */
  function DasRate(revenue: real): (rate: real)
    ensures rate in {0.06, 0.112, 0.135, 0.16, 0.21, 0.33}
    ensures rate == 0.06 <==> revenue <= 180000.0
    ensures rate == 0.33 <==> revenue > 3600000.0
  {
    if revenue <= 180000.0 then 0.06
    else if revenue <= 360000.0 then 0.112
    else if revenue <= 720000.0 then 0.135
    else if revenue <= 1800000.0 then 0.16
    else if revenue <= 3600000.0 then 0.21
    else 0.33
  }

  /** The bracket rate applies to the whole revenue, not marginally. */
  function DasTax(revenue: real): (tax: real)
    ensures revenue >= 0.0 ==> 0.06 * revenue <= tax <= 0.33 * revenue
    ensures revenue <= 180000.0 ==> tax == 0.06 * revenue
  {
    var rate := DasRate(revenue);
    assert revenue >= 0.0 ==> 0.06 * revenue <= revenue * rate <= 0.33 * revenue by {
      if revenue >= 0.0 {
        assert rate >= 0.06 && rate <= 0.33;
      }
    }
    revenue * rate
  }

  lemma DasRateBoundaries()
    ensures DasRate(180000.0) == 0.06 && DasRate(180000.01) == 0.112
    ensures DasRate(360000.0) == 0.112 && DasRate(360000.01) == 0.135
    ensures DasRate(720000.0) == 0.135 && DasRate(720000.01) == 0.16
    ensures DasRate(1800000.0) == 0.16 && DasRate(1800000.01) == 0.21
    ensures DasRate(3600000.0) == 0.21 && DasRate(3600000.01) == 0.33
  {
  }

  /** The rate never falls as revenue grows, and stays between 6% and 33%. */
  lemma DasRateMonotone(r1: real, r2: real)
    requires r1 <= r2
    ensures 0.06 <= DasRate(r1) <= DasRate(r2) <= 0.33
  {
  }

  /** The tax never falls as a non-negative revenue grows. */
  lemma DasTaxMonotone(r1: real, r2: real)
    requires 0.0 <= r1 <= r2
    ensures 0.0 <= DasTax(r1) <= DasTax(r2)
  {
    DasRateMonotone(r1, r2);
    var a, b := DasRate(r1), DasRate(r2);
    assert r1 * a <= r2 * a by {
      assert (r2 - r1) * a >= 0.0;
    }
    assert r2 * a <= r2 * b by {
      assert r2 * (b - a) >= 0.0;
    }
  }

  /** `Math.min(totalRevenue * 0.06, 60 * 12)`. */
  function MeiTax(revenue: real): (tax: real)
    ensures tax <= 720.0 && tax <= revenue * 0.06
    ensures tax == 720.0 || tax == revenue * 0.06
  {
    var six := revenue * 0.06;
    var cap := 60.0 * 12.0;
    if six < cap then six else cap
  }

  /** Below 12000 the MEI tax is the plain 6%; from 12000 on it is the 720 cap. */
  lemma MeiTaxRegimes(revenue: real)
    ensures revenue <= 12000.0 ==> MeiTax(revenue) == 0.06 * revenue
    ensures revenue >= 12000.0 ==> MeiTax(revenue) == 720.0
  {
  }

  // ---------------------------------------------------------------------------
  // Due dates
  // ---------------------------------------------------------------------------

  /** `new Date(year, month, 20)`: month is the period's 1-based month used as a
      0-based index, so this is day 20 of the following month. */
  function DasDueDate(year: int, month: int): (due: CivilDate)
    ensures due.day == 20 && 1 <= due.month <= 12
    ensures 12 * due.year + due.month == 12 * FullYear(year) + month + 1
  {
    JsDate(year, month, 20)
  }

  /** `new Date(year + 1, 5, 30)`. */
  function MeiDueDate(year: int): (due: CivilDate)
    ensures due == CivilDate(FullYear(year + 1), 6, 30)
  {
    JsDate(year + 1, 5, 30)
  }

  lemma DasDueDateNextMonth(year: int, month: int)
    requires 1 <= month <= 12 && !(0 <= year <= 99)
    ensures month < 12 ==> DasDueDate(year, month) == CivilDate(year, month + 1, 20)
    ensures month == 12 ==> DasDueDate(year, month) == CivilDate(year + 1, 1, 20)
  {
    JsDateMonth(year, month, 20);
  }

  lemma MeiDueDateNextJune(year: int)
    requires !(0 <= year + 1 <= 99)
    ensures MeiDueDate(year) == CivilDate(year + 1, 6, 30)
  {
    JsDateMonth(year + 1, 5, 30);
  }

  // ---------------------------------------------------------------------------
  // The table and its upsert
  // ---------------------------------------------------------------------------

  predicate Keyed(t: Tax, kind: string, period: string) {
    t.kind == kind && t.period == period
  }

  /** `findFirst({ where: { type, period } })`: the index of the first match. */
  function FindFirst(rs: seq<Tax>, kind: string, period: string): (r: Option<nat>)
    ensures r.Some? ==> r.value < |rs| && Keyed(rs[r.value], kind, period) &&
                        forall j :: 0 <= j < r.value ==> !Keyed(rs[j], kind, period)
    ensures r.None? ==> forall j :: 0 <= j < |rs| ==> !Keyed(rs[j], kind, period)
  {
    if rs == [] then None
    else if Keyed(rs[0], kind, period) then Some(0)
    else match FindFirst(rs[1..], kind, period)
      case Some(i) => Some(i + 1)
      case None => None
  }

  /** The table after the find-then-update-or-create of the DAS/MEI handlers:
      an existing record gets the new revenue and tax; otherwise a pending
      record with id `newId` is appended. */
  function Upserted(rs: seq<Tax>, newId: int, kind: string, period: string,
                    revenue: real, taxAmount: real, dueDate: int): (r: seq<Tax>)
    ensures FindFirst(rs, kind, period).Some? ==> |r| == |rs|
    ensures FindFirst(rs, kind, period).None? ==> |r| == |rs| + 1 && r[..|rs|] == rs
    ensures FindFirst(r, kind, period).Some? &&
            r[FindFirst(r, kind, period).value].revenue == revenue &&
            r[FindFirst(r, kind, period).value].taxAmount == taxAmount
  {
    match FindFirst(rs, kind, period)
    case Some(i) =>
      var r := rs[i := rs[i].(revenue := revenue, taxAmount := taxAmount)];
      assert Keyed(r[i], kind, period);
      assert forall j :: 0 <= j < i ==> r[j] == rs[j];
      r
    case None =>
      var r := rs + [Tax(newId, kind, period, revenue, taxAmount, "pending", dueDate)];
      assert Keyed(r[|rs|], kind, period);
      assert r[..|rs|] == rs;
      r
  }

  /** Number of records with the given (type, period). */
  function CountKeyed(rs: seq<Tax>, kind: string, period: string): nat
  {
    if rs == [] then 0
    else CountKeyed(rs[..|rs| - 1], kind, period) + (if Keyed(rs[|rs| - 1], kind, period) then 1 else 0)
  }

  /** When a record with the key exists, only the first one changes, and only
      in its revenue and tax amount. */
  lemma UpsertUpdatesInPlace(rs: seq<Tax>, newId: int, kind: string, period: string,
                             revenue: real, taxAmount: real, dueDate: int, i: nat)
    requires FindFirst(rs, kind, period) == Some(i)
    ensures |Upserted(rs, newId, kind, period, revenue, taxAmount, dueDate)| == |rs|
    ensures forall j :: 0 <= j < |rs| && j != i ==> Upserted(rs, newId, kind, period, revenue, taxAmount, dueDate)[j] == rs[j]
    ensures Upserted(rs, newId, kind, period, revenue, taxAmount, dueDate)[i] ==
            Tax(rs[i].id, kind, period, revenue, taxAmount, rs[i].status, rs[i].dueDate)
  {
  }

  /** When no record has the key, exactly one pending record is appended. */
  lemma UpsertAppends(rs: seq<Tax>, newId: int, kind: string, period: string,
                      revenue: real, taxAmount: real, dueDate: int)
    requires forall j :: 0 <= j < |rs| ==> !Keyed(rs[j], kind, period)
    ensures Upserted(rs, newId, kind, period, revenue, taxAmount, dueDate) ==
            rs + [Tax(newId, kind, period, revenue, taxAmount, "pending", dueDate)]
  {
  }

  lemma {:induction false} CountKeyedUpdate(rs: seq<Tax>, i: nat, t: Tax, kind: string, period: string)
    requires i < |rs| && Keyed(rs[i], t.kind, t.period)
    ensures CountKeyed(rs[i := t], kind, period) == CountKeyed(rs, kind, period)
  {
    if i < |rs| - 1 {
      assert rs[i := t][..|rs| - 1] == rs[..|rs| - 1][i := t];
      CountKeyedUpdate(rs[..|rs| - 1], i, t, kind, period);
    } else {
      assert rs[i := t][..|rs| - 1] == rs[..|rs| - 1];
    }
  }

  lemma CountKeyedAppend(rs: seq<Tax>, t: Tax, kind: string, period: string)
    ensures CountKeyed(rs + [t], kind, period) == CountKeyed(rs, kind, period) + (if Keyed(t, kind, period) then 1 else 0)
  {
    assert (rs + [t])[..|rs|] == rs;
  }

  lemma {:induction false} CountKeyedZero(rs: seq<Tax>, kind: string, period: string)
    requires forall j :: 0 <= j < |rs| ==> !Keyed(rs[j], kind, period)
    ensures CountKeyed(rs, kind, period) == 0
  {
    if rs != [] {
      CountKeyedZero(rs[..|rs| - 1], kind, period);
    }
  }

  /** The upsert leaves exactly as many records with its key as before, or one
      when there were none; the counts of every other key are unchanged. */
  lemma UpsertCount(rs: seq<Tax>, newId: int, kind: string, period: string,
                    revenue: real, taxAmount: real, dueDate: int, k: string, p: string)
    ensures CountKeyed(Upserted(rs, newId, kind, period, revenue, taxAmount, dueDate), k, p) ==
            if k == kind && p == period then
              (if CountKeyed(rs, k, p) == 0 then 1 else CountKeyed(rs, k, p))
            else CountKeyed(rs, k, p)
  {
    match FindFirst(rs, kind, period)
    case Some(i) =>
      CountKeyedUpdate(rs, i, rs[i].(revenue := revenue, taxAmount := taxAmount), k, p);
      if k == kind && p == period {
        CountKeyedPositive(rs, i, k, p);
      }
    case None =>
      CountKeyedAppend(rs, Tax(newId, kind, period, revenue, taxAmount, "pending", dueDate), k, p);
      if k == kind && p == period {
        CountKeyedZero(rs, k, p);
      }
  }

  lemma {:induction false} CountKeyedPositive(rs: seq<Tax>, i: nat, kind: string, period: string)
    requires i < |rs| && Keyed(rs[i], kind, period)
    ensures CountKeyed(rs, kind, period) > 0
  {
    if i < |rs| - 1 {
      CountKeyedPositive(rs[..|rs| - 1], i, kind, period);
    }
  }

  /** Repeating a calculation with the same inputs changes nothing more: in
      particular it adds no second record for the key. */
  lemma UpsertIdempotent(rs: seq<Tax>, id1: int, id2: int, kind: string, period: string,
                         revenue: real, taxAmount: real, dueDate: int)
    ensures Upserted(Upserted(rs, id1, kind, period, revenue, taxAmount, dueDate), id2, kind, period, revenue, taxAmount, dueDate)
         == Upserted(rs, id1, kind, period, revenue, taxAmount, dueDate)
  {
    var once := Upserted(rs, id1, kind, period, revenue, taxAmount, dueDate);
    match FindFirst(rs, kind, period)
    case Some(i) =>
      FindFirstAt(once, i, kind, period);
    case None =>
      FindFirstAt(once, |rs|, kind, period);
  }

  /** `FindFirst` is determined by which records carry the key. */
  lemma FindFirstAt(rs: seq<Tax>, i: nat, kind: string, period: string)
    requires i < |rs| && Keyed(rs[i], kind, period)
    requires forall j :: 0 <= j < i ==> !Keyed(rs[j], kind, period)
    ensures FindFirst(rs, kind, period) == Some(i)
  {
  }

  /** A record with no `pending` status, or a due date outside the next seven days, is not a reminder. */
  predicate IsReminder(t: Tax, today: int)
  {
    t.status == "pending" && today <= t.dueDate <= today + 7 * MsPerDay
  }

  /** The tax table that the DAS/MEI handlers read and write. */
  class TaxTable {
    var records: seq<Tax>
    var nextId: int

    /** Ids are auto-incremented primary keys: every stored id is below the
        next one, and no two records share an id, so the record found by
        position is the one the update addresses by id. */
    ghost predicate Valid()
      reads this
    {
      (forall i :: 0 <= i < |records| ==> records[i].id < nextId) &&
      (forall i, j :: 0 <= i < j < |records| ==> records[i].id != records[j].id)
    }

    constructor ()
      ensures Valid() && records == []
    {
      records := [];
      nextId := 1;
    }

    /** Finds the first record with (kind, period): updates it in place, or
        creates a pending one with the next id. Returns the stored record. */
    method Upsert(kind: string, period: string, revenue: real, taxAmount: real, dueDate: int) returns (t: Tax)
      requires Valid()
      modifies this
      ensures Valid()
      ensures records == Upserted(old(records), old(nextId), kind, period, revenue, taxAmount, dueDate)
      ensures t in records && Keyed(t, kind, period) && t.revenue == revenue && t.taxAmount == taxAmount
      ensures forall j :: 0 <= j < |records| && records[j].id == t.id ==> records[j] == t
      ensures match FindFirst(old(records), kind, period)
              case Some(i) => t == records[i] && nextId == old(nextId)
              case None => t == Tax(old(nextId), kind, period, revenue, taxAmount, "pending", dueDate) &&
                           nextId == old(nextId) + 1
    {
      var found := FindFirst(records, kind, period);
      match found
      case Some(i) =>
        records := records[i := records[i].(revenue := revenue, taxAmount := taxAmount)];
        t := records[i];
      case None =>
        t := Tax(nextId, kind, period, revenue, taxAmount, "pending", dueDate);
        records := records + [t];
        nextId := nextId + 1;
    }

    /** POST /taxes/calculate-das for (year, month), over the stored
        transactions and invoices; `toInstant` is the runtime's local-time
        reading of a civil date. */
    method CalculateDas(year: int, month: int, txs: seq<Transaction>, invoices: seq<Invoice>,
                        toInstant: CivilDate -> int) returns (t: Tax)
      requires Valid()
      modifies this
      ensures Valid()
      ensures t.kind == "DAS" && t.period == DasPeriod(year, month)
      ensures t.revenue == WindowRevenue(txs, invoices, DasWindow(year, month), toInstant)
      ensures t.taxAmount == DasTax(t.revenue)
      ensures records == Upserted(old(records), old(nextId), "DAS", DasPeriod(year, month),
                                  t.revenue, t.taxAmount, toInstant(DasDueDate(year, month)))
      ensures t in records && forall j :: 0 <= j < |records| && records[j].id == t.id ==> records[j] == t
      ensures match FindFirst(old(records), "DAS", DasPeriod(year, month))
              case Some(i) => t == old(records)[i].(revenue := t.revenue, taxAmount := t.taxAmount) &&
                              nextId == old(nextId)
              case None => t.id == old(nextId) && t.status == "pending" &&
                           t.dueDate == toInstant(DasDueDate(year, month)) && nextId == old(nextId) + 1
    {
      var period := DasPeriod(year, month);
      var totalRevenue := WindowRevenue(txs, invoices, DasWindow(year, month), toInstant);
      var taxAmount := DasTax(totalRevenue);
      var due := toInstant(DasDueDate(year, month));
      ghost var found := FindFirst(records, "DAS", period);
      t := Upsert("DAS", period, totalRevenue, taxAmount, due);
      assert t.kind == "DAS" && t.period == period && t.revenue == totalRevenue && t.taxAmount == taxAmount;
      match found {
        case Some(i) =>
          assert t == old(records)[i].(revenue := totalRevenue, taxAmount := taxAmount) && nextId == old(nextId);
        case None => assert t.id == old(nextId) && t.status == "pending" && t.dueDate == due && nextId == old(nextId) + 1;
      }
    }

    /** POST /taxes/calculate-mei for a year. */
    method CalculateMei(year: int, txs: seq<Transaction>, invoices: seq<Invoice>,
                        toInstant: CivilDate -> int) returns (t: Tax)
      requires Valid()
      modifies this
      ensures Valid()
      ensures t.kind == "MEI" && t.period == MeiPeriod(year)
      ensures t.revenue == WindowRevenue(txs, invoices, MeiWindow(year), toInstant)
      ensures t.taxAmount == MeiTax(t.revenue)
      ensures records == Upserted(old(records), old(nextId), "MEI", MeiPeriod(year),
                                  t.revenue, t.taxAmount, toInstant(MeiDueDate(year)))
      ensures t in records && forall j :: 0 <= j < |records| && records[j].id == t.id ==> records[j] == t
      ensures match FindFirst(old(records), "MEI", MeiPeriod(year))
              case Some(i) => t == old(records)[i].(revenue := t.revenue, taxAmount := t.taxAmount) &&
                              nextId == old(nextId)
              case None => t.id == old(nextId) && t.status == "pending" &&
                           t.dueDate == toInstant(MeiDueDate(year)) && nextId == old(nextId) + 1
    {
      var period := MeiPeriod(year);
      var totalRevenue := WindowRevenue(txs, invoices, MeiWindow(year), toInstant);
      var taxAmount := MeiTax(totalRevenue);
      var due := toInstant(MeiDueDate(year));
      ghost var found := FindFirst(records, "MEI", period);
      t := Upsert("MEI", period, totalRevenue, taxAmount, due);
      assert t.kind == "MEI" && t.period == period && t.revenue == totalRevenue && t.taxAmount == taxAmount;
      match found {
        case Some(i) =>
          assert t == old(records)[i].(revenue := totalRevenue, taxAmount := taxAmount) && nextId == old(nextId);
        case None => assert t.id == old(nextId) && t.status == "pending" && t.dueDate == due && nextId == old(nextId) + 1;
      }
    }

    /** GET /taxes/reminders: pending records due between now and a week from now, both included. */
    function Reminders(today: int): (r: seq<Tax>)
      reads this
      ensures Subsequence(r, records)
      ensures forall t :: t in r <==> t in records && t.status == "pending" && today <= t.dueDate <= today + 7 * MsPerDay
    {
      Where(records, (t: Tax) => IsReminder(t, today))
    }
  }
}
