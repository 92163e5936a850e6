/** Monthly budgets: validation on create and on partial update, the in-place patch of
    a budget record, the one-budget-per-month guard, deletion, the spent amount of a
    month and the derived status (remaining amount, percentage, exceeded and near-limit
    flags). Amounts are exact reals; expense dates are Unix nanoseconds in UTC. */
module Budgets {
  import opened Base
  import opened Calendar

  /** A stored budget row. */
  datatype BudgetRecord = BudgetRecord(id: nat, userId: nat, amount: real, month: int, year: int)

  datatype CreateBudgetRequest = CreateBudgetRequest(amount: real, month: int, year: int)

  /** A partial update: an absent field is left as it is. */
  datatype UpdateBudgetRequest = UpdateBudgetRequest(amount: Option<real>, month: Option<int>, year: Option<int>)

  datatype BudgetError =
    | AmountNotPositive
    | MonthOutOfRange
    | YearOutOfRange
    | AlreadyExists
    | BudgetNotFound
    | StoreFailed(cause: StoreError)

  predicate ValidAmount(a: real) { a > 0.0 }
  predicate ValidMonth(m: int) { 1 <= m <= 12 }
  predicate ValidYear(y: int) { 2000 <= y <= 2100 }

  predicate ValidRecord(b: BudgetRecord) {
    ValidAmount(b.amount) && ValidMonth(b.month) && ValidYear(b.year)
  }

  // ---------------------------------------------------------------- validation

  /** `validateBudgetCreate`: amount, then month, then year. */
  function ValidateBudgetCreate(req: CreateBudgetRequest): (r: Option<BudgetError>)
    ensures r.None? <==> ValidAmount(req.amount) && ValidMonth(req.month) && ValidYear(req.year)
    ensures !ValidAmount(req.amount) ==> r == Some(AmountNotPositive)
    ensures ValidAmount(req.amount) && !ValidMonth(req.month) ==> r == Some(MonthOutOfRange)
    ensures ValidAmount(req.amount) && ValidMonth(req.month) && !ValidYear(req.year) ==> r == Some(YearOutOfRange)
  {
    if req.amount <= 0.0 then Some(AmountNotPositive)
    else if req.month < 1 || req.month > 12 then Some(MonthOutOfRange)
    else if req.year < 2000 || req.year > 2100 then Some(YearOutOfRange)
    else None
  }

  // ------------------------------------------------------------ partial update

  /** The update as a whole: every present field replaces the stored one. */
  function Overlay(b: BudgetRecord, req: UpdateBudgetRequest): BudgetRecord {
    BudgetRecord(
      b.id, b.userId,
      if req.amount.Some? then req.amount.value else b.amount,
      if req.month.Some? then req.month.value else b.month,
      if req.year.Some? then req.year.value else b.year)
  }

  predicate UpdateIsValid(req: UpdateBudgetRequest) {
    (req.amount.Some? ==> ValidAmount(req.amount.value)) &&
    (req.month.Some? ==> ValidMonth(req.month.value)) &&
    (req.year.Some? ==> ValidYear(req.year.value))
  }

  /** `applyBudgetUpdate` on a record: each present field is checked and, if valid,
      written before the next field is looked at. The record returned is the one the
      code leaves behind, also when it stops with an error. */
  function PatchBudget(b: BudgetRecord, req: UpdateBudgetRequest): (r: (BudgetRecord, Option<BudgetError>))
    ensures r.0.id == b.id && r.0.userId == b.userId
    ensures r.1.None? <==> UpdateIsValid(req)
    ensures r.1.None? ==> r.0 == Overlay(b, req)
  {
    if req.amount.Some? && req.amount.value <= 0.0 then (b, Some(AmountNotPositive))
    else
      var b1 := if req.amount.Some? then b.(amount := req.amount.value) else b;
      if req.month.Some? && (req.month.value < 1 || req.month.value > 12) then (b1, Some(MonthOutOfRange))
      else
        var b2 := if req.month.Some? then b1.(month := req.month.value) else b1;
        if req.year.Some? && (req.year.value < 2000 || req.year.value > 2100) then (b2, Some(YearOutOfRange))
        else (if req.year.Some? then b2.(year := req.year.value) else b2, None)
  }

  /** The first invalid field decides the error, in the order amount, month, year. */
  lemma PatchReportsFirstInvalidField(b: BudgetRecord, req: UpdateBudgetRequest)
    ensures req.amount.Some? && !ValidAmount(req.amount.value) ==> PatchBudget(b, req) == (b, Some(AmountNotPositive))
    ensures (req.amount.Some? ==> ValidAmount(req.amount.value)) && req.month.Some? && !ValidMonth(req.month.value) ==>
              PatchBudget(b, req).1 == Some(MonthOutOfRange)
    ensures (req.amount.Some? ==> ValidAmount(req.amount.value)) && (req.month.Some? ==> ValidMonth(req.month.value)) &&
            req.year.Some? && !ValidYear(req.year.value) ==>
              PatchBudget(b, req).1 == Some(YearOutOfRange)
  {
  }

  /** The patch is not atomic: a valid amount is already written when a later field
      is rejected. */
  lemma PatchIsNotAtomic(b: BudgetRecord, a: real, m: int)
    requires ValidAmount(a) && !ValidMonth(m)
    ensures var (patched, err) := PatchBudget(b, UpdateBudgetRequest(Some(a), Some(m), None));
            err == Some(MonthOutOfRange) && patched.amount == a && patched.month == b.month
  {
  }

  /** A valid budget stays valid under an accepted patch. */
  lemma PatchKeepsRecordValid(b: BudgetRecord, req: UpdateBudgetRequest)
    requires ValidRecord(b) && PatchBudget(b, req).1.None?
    ensures ValidRecord(PatchBudget(b, req).0)
  {
  }

  /** The in-memory `*models.Budget` that `applyBudgetUpdate` writes field by field. */
  class Budget {
    var id: nat
    var userId: nat
    var amount: real
    var month: int
    var year: int

    function Record(): BudgetRecord
      reads this
    {
      BudgetRecord(id, userId, amount, month, year)
    }

    constructor (r: BudgetRecord)
      ensures Record() == r
    {
      id, userId, amount, month, year := r.id, r.userId, r.amount, r.month, r.year;
    }
  }

  // ------------------------------------------------------------------- store

  /** The budget table and the next primary key it will assign. */
  datatype BudgetTable = BudgetTable(rows: seq<BudgetRecord>, nextId: nat)

  /** Primary keys are positive, distinct and below the next one. */
  predicate TableWellFormed(t: BudgetTable) {
    (forall i | 0 <= i < |t.rows| :: 0 < t.rows[i].id < t.nextId) && DistinctIds(t.rows)
  }

  predicate DistinctIds(rows: seq<BudgetRecord>) {
    forall i, j | 0 <= i < j < |rows| :: rows[i].id != rows[j].id
  }

  predicate SameMonth(b: BudgetRecord, userId: nat, month: int, year: int) {
    b.userId == userId && b.month == month && b.year == year
  }

  /** At most one budget per user and month. */
  predicate OneBudgetPerMonth(rows: seq<BudgetRecord>) {
    forall i, j | 0 <= i < j < |rows| :: !SameMonth(rows[j], rows[i].userId, rows[i].month, rows[i].year)
  }

  function FindBudget(rows: seq<BudgetRecord>, id: nat): (r: Option<BudgetRecord>)
    ensures r.Some? ==> r.value in rows && r.value.id == id
    ensures r.None? <==> forall i | 0 <= i < |rows| :: rows[i].id != id
  {
    if rows == [] then None
    else if rows[0].id == id then Some(rows[0])
    else FindBudget(rows[1..], id)
  }

  function FindBudgetForMonth(rows: seq<BudgetRecord>, userId: nat, month: int, year: int): (r: Option<BudgetRecord>)
    ensures r.Some? ==> r.value in rows && SameMonth(r.value, userId, month, year)
    ensures r.None? <==> forall i | 0 <= i < |rows| :: !SameMonth(rows[i], userId, month, year)
  {
    if rows == [] then None
    else if SameMonth(rows[0], userId, month, year) then Some(rows[0])
    else FindBudgetForMonth(rows[1..], userId, month, year)
  }

  /** `Create`: the row gets the next primary key. */
  function InsertBudget(t: BudgetTable, b: BudgetRecord, fault: Option<StoreError>): (r: (Result<BudgetRecord, StoreError>, BudgetTable))
    ensures r.0.Ok? <==> fault.None?
    ensures r.0.Ok? ==> r.0.value == b.(id := t.nextId) && r.1 == BudgetTable(t.rows + [r.0.value], t.nextId + 1)
    ensures r.0.Err? ==> r.1 == t
    ensures TableWellFormed(t) && t.nextId > 0 ==> TableWellFormed(r.1)
  {
    if fault.Some? then (Err(fault.value), t)
    else
      var created := b.(id := t.nextId);
      (Ok(created), BudgetTable(t.rows + [created], t.nextId + 1))
  }

  /** `Update` (GORM `Save`): the row with the record's id is overwritten. */
  function SaveBudget(t: BudgetTable, b: BudgetRecord, fault: Option<StoreError>): (r: (Option<StoreError>, BudgetTable))
    ensures r.0 == fault
    ensures fault.Some? ==> r.1 == t
    ensures fault.None? ==> r.1.nextId == t.nextId && |r.1.rows| == |t.rows|
    ensures fault.None? ==> forall i | 0 <= i < |t.rows| :: r.1.rows[i] == if t.rows[i].id == b.id then b else t.rows[i]
    ensures forall i | 0 <= i < |r.1.rows| :: r.1.rows[i].id == t.rows[i].id
    ensures TableWellFormed(t) ==> TableWellFormed(r.1)
  {
    if fault.Some? then (fault, t)
    else (None, BudgetTable(seq(|t.rows|, i requires 0 <= i < |t.rows| => if t.rows[i].id == b.id then b else t.rows[i]), t.nextId))
  }

  function Without(rows: seq<BudgetRecord>, id: nat): (r: seq<BudgetRecord>)
    ensures forall x :: x in r <==> x in rows && x.id != id
    ensures |r| <= |rows|
  {
    if rows == [] then []
    else (if rows[0].id == id then [] else [rows[0]]) + Without(rows[1..], id)
  }

  /** `Delete`: the row with that id is removed. */
  function DeleteRow(t: BudgetTable, id: nat, fault: Option<StoreError>): (r: (Option<StoreError>, BudgetTable))
    ensures r.0 == fault
    ensures fault.Some? ==> r.1 == t
    ensures fault.None? ==> r.1 == BudgetTable(Without(t.rows, id), t.nextId)
  {
    if fault.Some? then (fault, t) else (None, BudgetTable(Without(t.rows, id), t.nextId))
  }

  /** Deleting keeps the keys distinct and below the next one. */
  lemma WithoutKeepsKeys(t: BudgetTable, id: nat)
    requires TableWellFormed(t)
    ensures TableWellFormed(BudgetTable(Without(t.rows, id), t.nextId))
  {
    var rows' := Without(t.rows, id);
    forall j | 0 <= j < |rows'| ensures 0 < rows'[j].id < t.nextId {
      assert rows'[j] in t.rows;
    }
    WithoutDistinct(t.rows, id);
  }

  lemma {:induction false} WithoutDistinct(rows: seq<BudgetRecord>, id: nat)
    requires DistinctIds(rows)
    ensures DistinctIds(Without(rows, id))
    decreases |rows|
  {
    if rows != [] {
      var rest := Without(rows[1..], id);
      assert DistinctIds(rows[1..]) by {
        forall i, j | 0 <= i < j < |rows[1..]| ensures rows[1..][i].id != rows[1..][j].id {
          assert rows[1..][i] == rows[i + 1] && rows[1..][j] == rows[j + 1];
        }
      }
      WithoutDistinct(rows[1..], id);
      forall k | 0 <= k < |rest| ensures rest[k].id != rows[0].id {
        assert rest[k] in rows[1..];
        var m :| 0 <= m < |rows[1..]| && rows[1..][m] == rest[k];
        assert rows[m + 1] == rest[k];
      }
      var r := Without(rows, id);
      if rows[0].id != id {
        assert r == [rows[0]] + rest;
        forall i, j | 0 <= i < j < |r| ensures r[i].id != r[j].id {
          assert r[j] == rest[j - 1];
          if i > 0 {
            assert r[i] == rest[i - 1];
            assert 0 <= i - 1 < j - 1 < |rest|;
          } else {
            assert r[i] == rows[0];
          }
        }
      } else {
        assert r == rest;
      }
    }
  }

  /** Deleting keeps at most one budget per user and month. */
  lemma {:induction false} WithoutKeepsOnePerMonth(rows: seq<BudgetRecord>, id: nat)
    requires OneBudgetPerMonth(rows)
    ensures OneBudgetPerMonth(Without(rows, id))
    decreases |rows|
  {
    if rows != [] {
      var rest := Without(rows[1..], id);
      assert OneBudgetPerMonth(rows[1..]) by {
        forall i, j | 0 <= i < j < |rows[1..]| ensures !SameMonth(rows[1..][j], rows[1..][i].userId, rows[1..][i].month, rows[1..][i].year) {
          assert rows[1..][i] == rows[i + 1] && rows[1..][j] == rows[j + 1];
        }
      }
      WithoutKeepsOnePerMonth(rows[1..], id);
      forall k | 0 <= k < |rest| ensures !SameMonth(rest[k], rows[0].userId, rows[0].month, rows[0].year) {
        assert rest[k] in rows[1..];
        var m :| 0 <= m < |rows[1..]| && rows[1..][m] == rest[k];
        assert rows[m + 1] == rest[k];
      }
      var r := Without(rows, id);
      if rows[0].id != id {
        assert r == [rows[0]] + rest;
        forall i, j | 0 <= i < j < |r| ensures !SameMonth(r[j], r[i].userId, r[i].month, r[i].year) {
          assert r[j] == rest[j - 1];
          if i > 0 {
            assert r[i] == rest[i - 1];
          }
        }
      } else {
        assert r == rest;
      }
    }
  }

  class BudgetRepository {
    var table: BudgetTable

    ghost predicate Valid()
      reads this
    {
      TableWellFormed(table) && table.nextId > 0
    }

    constructor ()
      ensures Valid() && table == BudgetTable([], 1)
    {
      table := BudgetTable([], 1);
    }

    method GetByID(id: nat, fault: Option<StoreError>) returns (r: Lookup<BudgetRecord>)
      ensures r == LookupOf(FindBudget(table.rows, id), fault)
    {
      r := LookupOf(FindBudget(table.rows, id), fault);
    }

    method GetByUserIDAndMonth(userId: nat, month: int, year: int, fault: Option<StoreError>) returns (r: Lookup<BudgetRecord>)
      ensures r == LookupOf(FindBudgetForMonth(table.rows, userId, month, year), fault)
    {
      r := LookupOf(FindBudgetForMonth(table.rows, userId, month, year), fault);
    }

    method Create(b: BudgetRecord, fault: Option<StoreError>) returns (r: Result<BudgetRecord, StoreError>)
      requires Valid()
      modifies this
      ensures Valid()
      ensures (r, table) == InsertBudget(old(table), b, fault)
    {
      var step := InsertBudget(table, b, fault);
      r, table := step.0, step.1;
    }

    method Update(b: BudgetRecord, fault: Option<StoreError>) returns (r: Option<StoreError>)
      requires Valid()
      modifies this
      ensures Valid()
      ensures (r, table) == SaveBudget(old(table), b, fault)
    {
      var step := SaveBudget(table, b, fault);
      r, table := step.0, step.1;
    }

    method Delete(id: nat, fault: Option<StoreError>) returns (r: Option<StoreError>)
      requires Valid()
      modifies this
      ensures Valid()
      ensures (r, table) == DeleteRow(old(table), id, fault)
    {
      WithoutKeepsKeys(table, id);
      var step := DeleteRow(table, id, fault);
      r, table := step.0, step.1;
    }
  }

  // ---------------------------------------------------------------- expenses

  /** An expense of a user, dated in Unix nanoseconds. */
  datatype Expense = Expense(userId: nat, amount: real, date: int)

  /** The expenses the filter `{UserID, StartDate, EndDate}` lists: the user's, dated
      within `[start, end]`, in stored order. */
  function InWindow(rows: seq<Expense>, userId: nat, start: int, end: int): (r: seq<Expense>)
    ensures |r| <= |rows|
    ensures forall e :: e in r <==> e in rows && e.userId == userId && start <= e.date <= end
  {
    if rows == [] then []
    else
      (if rows[0].userId == userId && start <= rows[0].date <= end then [rows[0]] else []) +
      InWindow(rows[1..], userId, start, end)
  }

  class ExpenseRepository {
    var rows: seq<Expense>

    constructor ()
      ensures rows == []
    {
      rows := [];
    }

    method List(userId: nat, start: int, end: int, fault: Option<StoreError>) returns (r: Result<seq<Expense>, StoreError>)
      ensures fault.Some? ==> r == Err(fault.value)
      ensures fault.None? ==> r == Ok(InWindow(rows, userId, start, end))
    {
      if fault.Some? {
        r := Err(fault.value);
      } else {
        r := Ok(InWindow(rows, userId, start, end));
      }
    }
  }

  /** The sum of the amounts, added up from the first. */
  function Total(es: seq<Expense>): (r: real)
    ensures (forall i | 0 <= i < |es| :: es[i].amount >= 0.0) ==> r >= 0.0
  {
    if es == [] then 0.0 else Total(es[..|es| - 1]) + es[|es| - 1].amount
  }

  lemma {:induction false} TotalAppend(a: seq<Expense>, b: seq<Expense>)
    ensures Total(a + b) == Total(a) + Total(b)
    decreases |b|
  {
    if b == [] {
      assert a + b == a;
    } else {
      var ab := a + b;
      assert ab[..|ab| - 1] == a + b[..|b| - 1];
      assert ab[|ab| - 1] == b[|b| - 1];
      TotalAppend(a, b[..|b| - 1]);
    }
  }

  /** `[startDate, startDate.AddDate(0, 1, 0) - 1ns]` for the month, in nanoseconds. */
  function MonthWindow(year: int, month: int): (w: (int, int))
    ensures w.0 % NsPerDay == 0 && (w.1 + 1) % NsPerDay == 0
    ensures var (ny, nm) := NormalizeMonth(year, month); w.1 - w.0 + 1 == DaysInMonth(ny, nm) * NsPerDay
  {
    var first := MonthStartDay(year, month);
    var next := MonthStartDay(year, month + 1);
    MonthLength(year, month);
    DayBounds(first, next);
    assert (next * NsPerDay - 1) + 1 == next * NsPerDay;
    (first * NsPerDay, next * NsPerDay - 1)
  }

  /** Midnights are whole multiples of a day, and so is the distance between two. */
  lemma DayBounds(first: int, next: int)
    ensures (first * NsPerDay) % NsPerDay == 0 && (next * NsPerDay) % NsPerDay == 0
    ensures next * NsPerDay - first * NsPerDay == (next - first) * NsPerDay
  {
    assert NsPerDay == 86_400_000_000_000;
  }

  /** The window covers exactly the days of the (normalised) month, and the window of
      the next month starts one nanosecond after it ends. */
  lemma MonthWindowCoversMonth(year: int, month: int)
    ensures var (ny, nm) := NormalizeMonth(year, month);
            var (start, end) := MonthWindow(year, month);
            end - start + 1 == DaysInMonth(ny, nm) * NsPerDay && start < end &&
            MonthWindow(year, month + 1).0 == end + 1
  {
    MonthLength(year, month);
    assert NsPerDay == 86_400_000_000_000;
  }

  // ------------------------------------------------------------------ status

  datatype BudgetStatus = BudgetStatus(
    budget: BudgetRecord,
    spent: real,
    remaining: real,
    percentage: real,
    isExceeded: bool,
    isNearLimit: bool)

  /** 80 % of the budget, `NearLimitThreshold * 100`. */
  const NearLimitPercent: real := 80.0

  /** The derived figures of `GetBudgetStatus`. */
  function ComputeStatus(budget: BudgetRecord, spent: real): (st: BudgetStatus)
    ensures st.budget == budget && st.spent == spent
    ensures st.remaining >= 0.0
    ensures spent <= budget.amount ==> st.remaining == budget.amount - spent
    ensures spent > budget.amount ==> st.remaining == 0.0
    ensures st.isExceeded <==> spent > budget.amount
    ensures !(st.isExceeded && st.isNearLimit)
    ensures budget.amount == 0.0 ==> st.percentage == 0.0
    ensures budget.amount != 0.0 ==> st.percentage * budget.amount == spent * 100.0
    ensures budget.amount > 0.0 ==>
              (st.isNearLimit <==> 4.0 * budget.amount <= 5.0 * spent <= 5.0 * budget.amount)
  {
    var remaining := if budget.amount - spent < 0.0 then 0.0 else budget.amount - spent;
    var percentage := if budget.amount == 0.0 then 0.0 else (spent / budget.amount) * 100.0;
    var isExceeded := spent > budget.amount;
    var isNearLimit := percentage >= NearLimitPercent && !isExceeded;
    if budget.amount > 0.0 then
      NearLimitIsFourFifths(budget.amount, spent);
      BudgetStatus(budget, spent, remaining, percentage, isExceeded, isNearLimit)
    else
      BudgetStatus(budget, spent, remaining, percentage, isExceeded, isNearLimit)
  }

  lemma NearLimitIsFourFifths(amount: real, spent: real)
    requires amount > 0.0
    ensures (spent / amount) * 100.0 >= 80.0 <==> 4.0 * amount <= 5.0 * spent
  {
    var q := spent / amount;
    assert q * amount == spent;
    if q * 100.0 >= 80.0 {
      assert 5.0 * spent == 5.0 * q * amount;
    } else {
      assert 5.0 * spent == 5.0 * q * amount;
    }
  }

  // ------------------------------------------------------ service operations

  datatype BudgetFaults = BudgetFaults(lookup: Option<StoreError>, write: Option<StoreError>)

  /** `CreateBudget` on a table. */
  function CreateOutcome(t: BudgetTable, userId: nat, req: CreateBudgetRequest, faults: BudgetFaults)
    : (out: (Result<BudgetRecord, BudgetError>, BudgetTable))
    ensures out.0.Err? ==> out.1 == t
    ensures out.0.Ok? ==> ValidateBudgetCreate(req).None? && FindBudgetForMonth(t.rows, userId, req.month, req.year).None? &&
                          out.0.value.id == t.nextId && out.1 == BudgetTable(t.rows + [out.0.value], t.nextId + 1)
  {
    if ValidateBudgetCreate(req).Some? then (Err(ValidateBudgetCreate(req).value), t)
    else
      match LookupOf(FindBudgetForMonth(t.rows, userId, req.month, req.year), faults.lookup)
      case Failed(e) => (Err(StoreFailed(e)), t)
      case Found(_) => (Err(AlreadyExists), t)
      case NotFound =>
        var (created, t') := InsertBudget(t, BudgetRecord(0, userId, req.amount, req.month, req.year), faults.write);
        (match created
         case Err(e) => (Err(StoreFailed(e)), t)
         case Ok(b) => (Ok(b), t'))
  }

  /** A created budget carries the request's owner, amount, month and year and the
      next id; nothing is stored on any error. The checks come in order: the request's
      fields, then the lookup (its failure is returned as `StoreFailed`), then an
      existing budget for that month (`AlreadyExists`), then the insert's failure. */
  lemma CreateOutcomeShape(t: BudgetTable, userId: nat, req: CreateBudgetRequest, faults: BudgetFaults)
    ensures var (r, t') := CreateOutcome(t, userId, req, faults);
            (r.Ok? ==> r.value == BudgetRecord(t.nextId, userId, req.amount, req.month, req.year) &&
                       ValidRecord(r.value) && t'.rows == t.rows + [r.value]) &&
            (r.Err? ==> t' == t) &&
            (ValidateBudgetCreate(req).Some? ==> r == Err(ValidateBudgetCreate(req).value)) &&
            (ValidateBudgetCreate(req).None? && faults.lookup.Some? ==> r == Err(StoreFailed(faults.lookup.value))) &&
            ((ValidateBudgetCreate(req).None? && faults.lookup.None? &&
              FindBudgetForMonth(t.rows, userId, req.month, req.year).Some?) ==> r == Err(AlreadyExists)) &&
            ((ValidateBudgetCreate(req).None? && faults.lookup.None? &&
              FindBudgetForMonth(t.rows, userId, req.month, req.year).None? && faults.write.Some?) ==>
               r == Err(StoreFailed(faults.write.value)))
  {
  }

  /** Creation keeps at most one budget per user and month, keeps the keys well
      formed and keeps every stored budget valid. */
  lemma CreatePreservesInvariants(t: BudgetTable, userId: nat, req: CreateBudgetRequest, faults: BudgetFaults)
    requires TableWellFormed(t) && t.nextId > 0 && OneBudgetPerMonth(t.rows)
    requires forall i | 0 <= i < |t.rows| :: ValidRecord(t.rows[i])
    ensures var t' := CreateOutcome(t, userId, req, faults).1;
            TableWellFormed(t') && OneBudgetPerMonth(t'.rows) && forall i | 0 <= i < |t'.rows| :: ValidRecord(t'.rows[i])
  {
    var (r, t') := CreateOutcome(t, userId, req, faults);
    if r.Ok? {
      assert forall i | 0 <= i < |t.rows| :: !SameMonth(t.rows[i], userId, req.month, req.year);
      assert forall i | 0 <= i < |t.rows| :: t'.rows[i] == t.rows[i];
    }
  }

  /** `UpdateBudget` on a table. */
  function UpdateOutcome(t: BudgetTable, id: nat, req: UpdateBudgetRequest, faults: BudgetFaults)
    : (out: (Result<BudgetRecord, BudgetError>, BudgetTable))
    ensures out.0.Err? ==> out.1 == t
    ensures out.0.Ok? ==> FindBudget(t.rows, id).Some? && out.0.value.id == id && out.0.value.userId == FindBudget(t.rows, id).value.userId &&
                          out.1.nextId == t.nextId && |out.1.rows| == |t.rows|
  {
    match LookupOf(FindBudget(t.rows, id), faults.lookup)
    case NotFound => (Err(BudgetNotFound), t)
    case Failed(e) => (Err(StoreFailed(e)), t)
    case Found(b) =>
      var (patched, invalid) := PatchBudget(b, req);
      if invalid.Some? then (Err(invalid.value), t)
      else
        var (failed, t') := SaveBudget(t, patched, faults.write);
        if failed.Some? then (Err(StoreFailed(failed.value)), t) else (Ok(patched), t')
  }

  /** A failed lookup is returned as `StoreFailed`, an unknown id is `BudgetNotFound`,
      a rejected field is returned and leaves the table as it was even though the
      fetched record was partly patched, and a failed save is `StoreFailed`; a success
      writes the overlay of the request on the stored row. */
  lemma UpdateOutcomeShape(t: BudgetTable, id: nat, req: UpdateBudgetRequest, faults: BudgetFaults)
    ensures var (r, t') := UpdateOutcome(t, id, req, faults);
            (faults.lookup.Some? ==> r == Err(StoreFailed(faults.lookup.value))) &&
            (faults.lookup.None? && FindBudget(t.rows, id).None? ==> r == Err(BudgetNotFound)) &&
            (r.Err? ==> t' == t) &&
            (faults.lookup.None? && FindBudget(t.rows, id).Some? && !UpdateIsValid(req) ==>
               r == Err(PatchBudget(FindBudget(t.rows, id).value, req).1.value) && t' == t) &&
            (faults.lookup.None? && FindBudget(t.rows, id).Some? && UpdateIsValid(req) && faults.write.Some? ==>
               r == Err(StoreFailed(faults.write.value))) &&
            (r.Ok? ==> r.value == Overlay(FindBudget(t.rows, id).value, req) && UpdateIsValid(req) &&
                       t' == SaveBudget(t, r.value, None).1)
  {
    if faults.lookup.None? && FindBudget(t.rows, id).Some? {
      assert PatchBudget(FindBudget(t.rows, id).value, req).1.None? <==> UpdateIsValid(req);
    }
  }

  /** An update keeps the keys and keeps every stored budget valid. */
  lemma UpdatePreservesValidity(t: BudgetTable, id: nat, req: UpdateBudgetRequest, faults: BudgetFaults)
    requires TableWellFormed(t)
    requires forall i | 0 <= i < |t.rows| :: ValidRecord(t.rows[i])
    ensures var t' := UpdateOutcome(t, id, req, faults).1;
            TableWellFormed(t') && forall i | 0 <= i < |t'.rows| :: ValidRecord(t'.rows[i])
  {
    var (r, t') := UpdateOutcome(t, id, req, faults);
    if r.Ok? {
      var b := FindBudget(t.rows, id).value;
      var patched := PatchBudget(b, req).0;
      PatchKeepsRecordValid(b, req);
      assert patched.id == id && ValidRecord(patched);
      assert t' == SaveBudget(t, patched, faults.write).1;
      forall i | 0 <= i < |t'.rows| ensures t'.rows[i].id == t.rows[i].id && ValidRecord(t'.rows[i]) {
        assert t'.rows[i] == if t.rows[i].id == id then patched else t.rows[i];
      }
    }
  }

  /** An update keeps the keys well formed whatever the stored records are: the row
      it writes has the id it overwrites. */
  lemma UpdateKeepsKeys(t: BudgetTable, id: nat, req: UpdateBudgetRequest, faults: BudgetFaults)
    requires TableWellFormed(t)
    ensures TableWellFormed(UpdateOutcome(t, id, req, faults).1)
  {
    var (r, t') := UpdateOutcome(t, id, req, faults);
    if r.Ok? {
      assert t' == SaveBudget(t, PatchBudget(FindBudget(t.rows, id).value, req).0, faults.write).1;
    }
  }

  /** Unlike creation, an update does not re-check the month: two budgets of one
      user can end up in the same month. */
  lemma UpdateCanDuplicateMonth()
    ensures var t := BudgetTable([BudgetRecord(1, 7, 100.0, 1, 2025), BudgetRecord(2, 7, 100.0, 2, 2025)], 3);
            var (r, t') := UpdateOutcome(t, 2, UpdateBudgetRequest(None, Some(1), None), BudgetFaults(None, None));
            OneBudgetPerMonth(t.rows) && r.Ok? && !OneBudgetPerMonth(t'.rows)
  {
    var t := BudgetTable([BudgetRecord(1, 7, 100.0, 1, 2025), BudgetRecord(2, 7, 100.0, 2, 2025)], 3);
    var (r, t') := UpdateOutcome(t, 2, UpdateBudgetRequest(None, Some(1), None), BudgetFaults(None, None));
    assert t'.rows[1] == BudgetRecord(2, 7, 100.0, 1, 2025);
    assert t'.rows[0] == t.rows[0];
  }

  /** `DeleteBudget` on a table. */
  function DeleteOutcome(t: BudgetTable, id: nat, faults: BudgetFaults): (out: (Option<BudgetError>, BudgetTable))
    ensures out.0.Some? ==> out.1 == t
    ensures out.0.None? ==> FindBudget(t.rows, id).Some? && out.1 == BudgetTable(Without(t.rows, id), t.nextId)
  {
    match LookupOf(FindBudget(t.rows, id), faults.lookup)
    case NotFound => (Some(BudgetNotFound), t)
    case Failed(e) => (Some(StoreFailed(e)), t)
    case Found(_) =>
      var (failed, t') := DeleteRow(t, id, faults.write);
      if failed.Some? then (Some(StoreFailed(failed.value)), t) else (None, t')
  }

  /** A failed lookup or delete is `StoreFailed`, an unknown id is `BudgetNotFound`,
      and then nothing changes; a success removes exactly the row with that id. */
  lemma DeleteOutcomeShape(t: BudgetTable, id: nat, faults: BudgetFaults)
    requires TableWellFormed(t)
    ensures var (r, t') := DeleteOutcome(t, id, faults);
            (faults.lookup.Some? ==> r == Some(StoreFailed(faults.lookup.value))) &&
            (faults.lookup.None? && FindBudget(t.rows, id).None? ==> r == Some(BudgetNotFound)) &&
            (faults.lookup.None? && FindBudget(t.rows, id).Some? && faults.write.Some? ==>
               r == Some(StoreFailed(faults.write.value))) &&
            (r.Some? ==> t' == t) &&
            (r.None? ==> FindBudget(t'.rows, id).None? && |t'.rows| == |t.rows| - 1 &&
                         forall x | x in t.rows && x.id != id :: x in t'.rows)
  {
    var (r, t') := DeleteOutcome(t, id, faults);
    if r.None? {
      var rows' := Without(t.rows, id);
      assert t' == BudgetTable(rows', t.nextId);
      var i :| 0 <= i < |t.rows| && t.rows[i].id == id;
      WithoutUniqueKey(t.rows, id, i);
      forall j | 0 <= j < |rows'| ensures rows'[j].id != id {
        assert rows'[j] in rows';
      }
    }
  }

  /** Deletion keeps the keys well formed, at most one budget per user and month, and
      every stored budget valid. */
  lemma DeletePreservesInvariants(t: BudgetTable, id: nat, faults: BudgetFaults)
    requires TableWellFormed(t) && OneBudgetPerMonth(t.rows)
    requires forall i | 0 <= i < |t.rows| :: ValidRecord(t.rows[i])
    ensures var t' := DeleteOutcome(t, id, faults).1;
            TableWellFormed(t') && OneBudgetPerMonth(t'.rows) && forall i | 0 <= i < |t'.rows| :: ValidRecord(t'.rows[i])
  {
    var (r, t') := DeleteOutcome(t, id, faults);
    if r.None? {
      WithoutKeepsKeys(t, id);
      WithoutKeepsOnePerMonth(t.rows, id);
      forall i | 0 <= i < |t'.rows| ensures ValidRecord(t'.rows[i]) {
        assert t'.rows[i] in t.rows;
      }
    }
  }

  /** Removing a key that occurs exactly once shortens the rows by one. */
  lemma {:induction false} WithoutUniqueKey(rows: seq<BudgetRecord>, id: nat, i: nat)
    requires i < |rows| && rows[i].id == id
    requires forall j | 0 <= j < |rows| && j != i :: rows[j].id != id
    ensures |Without(rows, id)| == |rows| - 1
  {
    if i > 0 {
      WithoutUniqueKey(rows[1..], id, i - 1);
    } else {
      WithoutAbsentKey(rows[1..], id);
    }
  }

  lemma {:induction false} WithoutAbsentKey(rows: seq<BudgetRecord>, id: nat)
    requires forall j | 0 <= j < |rows| :: rows[j].id != id
    ensures Without(rows, id) == rows
  {
    if rows != [] {
      WithoutAbsentKey(rows[1..], id);
    }
  }

  /** `GetBudgetStatus` on a snapshot of both tables. */
  function StatusOutcome(budgets: seq<BudgetRecord>, expenses: seq<Expense>, userId: nat, month: int, year: int,
                         lookupFault: Option<StoreError>, listFault: Option<StoreError>)
    : (r: Result<BudgetStatus, BudgetError>)
    ensures lookupFault.Some? ==> r == Err(StoreFailed(lookupFault.value))
    ensures r.Ok? ==> listFault.None? && r.value.budget in budgets && SameMonth(r.value.budget, userId, month, year)
    ensures lookupFault.None? && FindBudgetForMonth(budgets, userId, month, year).Some? && listFault.Some? ==>
              r == Err(StoreFailed(listFault.value))
  {
    match LookupOf(FindBudgetForMonth(budgets, userId, month, year), lookupFault)
    case NotFound => Err(BudgetNotFound)
    case Failed(e) => Err(StoreFailed(e))
    case Found(b) =>
      if listFault.Some? then Err(StoreFailed(listFault.value))
      else
        var (start, end) := MonthWindow(year, month);
        Ok(ComputeStatus(b, Total(InWindow(expenses, userId, start, end))))
  }

  /** The status is about the user's budget of that month and the expenses of that
      user dated within the month. */
  lemma StatusIsOfTheMonth(budgets: seq<BudgetRecord>, expenses: seq<Expense>, userId: nat, month: int, year: int,
                           lookupFault: Option<StoreError>, listFault: Option<StoreError>)
    ensures var r := StatusOutcome(budgets, expenses, userId, month, year, lookupFault, listFault);
            (r.Ok? ==> r.value.budget in budgets && SameMonth(r.value.budget, userId, month, year) &&
                       r.value.spent == Total(InWindow(expenses, userId, MonthWindow(year, month).0, MonthWindow(year, month).1))) &&
            (lookupFault.None? && FindBudgetForMonth(budgets, userId, month, year).None? ==> r == Err(BudgetNotFound))
  {
  }

  // ------------------------------------------------------------- the service

  class BudgetService {
    const budgets: BudgetRepository
    const expenses: ExpenseRepository

    constructor (budgets: BudgetRepository, expenses: ExpenseRepository)
      ensures this.budgets == budgets && this.expenses == expenses
    {
      this.budgets := budgets;
      this.expenses := expenses;
    }

    method CreateBudget(userId: nat, req: CreateBudgetRequest, faults: BudgetFaults) returns (r: Result<BudgetRecord, BudgetError>)
      requires budgets.Valid()
      modifies budgets
      ensures budgets.Valid()
      ensures (r, budgets.table) == CreateOutcome(old(budgets.table), userId, req, faults)
    {
      var invalid := ValidateBudgetCreate(req);
      if invalid.Some? {
        return Err(invalid.value);
      }
      var existing := budgets.GetByUserIDAndMonth(userId, req.month, req.year, faults.lookup);
      if existing.Failed? {
        return Err(StoreFailed(existing.error));
      }
      if existing.Found? {
        return Err(AlreadyExists);
      }
      var created := budgets.Create(BudgetRecord(0, userId, req.amount, req.month, req.year), faults.write);
      if created.Err? {
        return Err(StoreFailed(created.error));
      }
      r := Ok(created.value);
    }

    /** `applyBudgetUpdate`: checks and writes the present fields one at a time. */
    method ApplyBudgetUpdate(budget: Budget, req: UpdateBudgetRequest) returns (err: Option<BudgetError>)
      modifies budget
      ensures (budget.Record(), err) == PatchBudget(old(budget.Record()), req)
    {
      if req.amount.Some? {
        if req.amount.value <= 0.0 {
          return Some(AmountNotPositive);
        }
        budget.amount := req.amount.value;
      }
      if req.month.Some? {
        if req.month.value < 1 || req.month.value > 12 {
          return Some(MonthOutOfRange);
        }
        budget.month := req.month.value;
      }
      if req.year.Some? {
        if req.year.value < 2000 || req.year.value > 2100 {
          return Some(YearOutOfRange);
        }
        budget.year := req.year.value;
      }
      return None;
    }

    method UpdateBudget(id: nat, req: UpdateBudgetRequest, faults: BudgetFaults) returns (r: Result<BudgetRecord, BudgetError>)
      requires budgets.Valid()
      modifies budgets
      ensures budgets.Valid()
      ensures (r, budgets.table) == UpdateOutcome(old(budgets.table), id, req, faults)
    {
      var found := budgets.GetByID(id, faults.lookup);
      if found.NotFound? {
        return Err(BudgetNotFound);
      }
      if found.Failed? {
        return Err(StoreFailed(found.error));
      }
      var budget := new Budget(found.row);
      var invalid := ApplyBudgetUpdate(budget, req);
      if invalid.Some? {
        return Err(invalid.value);
      }
      var failed := budgets.Update(budget.Record(), faults.write);
      if failed.Some? {
        return Err(StoreFailed(failed.value));
      }
      r := Ok(budget.Record());
    }

    method DeleteBudget(id: nat, faults: BudgetFaults) returns (r: Option<BudgetError>)
      requires budgets.Valid()
      modifies budgets
      ensures budgets.Valid()
      ensures (r, budgets.table) == DeleteOutcome(old(budgets.table), id, faults)
    {
      var found := budgets.GetByID(id, faults.lookup);
      if found.NotFound? {
        return Some(BudgetNotFound);
      }
      if found.Failed? {
        return Some(StoreFailed(found.error));
      }
      var failed := budgets.Delete(id, faults.write);
      if failed.Some? {
        return Some(StoreFailed(failed.value));
      }
      r := None;
    }

    /** `calculateSpentAmount`: the total of the month's expenses, summed in a loop. */
    method CalculateSpentAmount(userId: nat, month: int, year: int, fault: Option<StoreError>) returns (r: Result<real, StoreError>)
      ensures fault.Some? ==> r == Err(fault.value)
      ensures fault.None? ==> r == Ok(Total(InWindow(expenses.rows, userId, MonthWindow(year, month).0, MonthWindow(year, month).1)))
    {
      var (start, end) := MonthWindow(year, month);
      var listed := expenses.List(userId, start, end, fault);
      if listed.Err? {
        return Err(listed.error);
      }
      var total := SumAmounts(listed.value);
      r := Ok(total);
    }

    /** The summing loop of `calculateSpentAmount`. */
    static method SumAmounts(es: seq<Expense>) returns (total: real)
      ensures total == Total(es)
    {
      total := 0.0;
      var i := 0;
      while i < |es|
        invariant 0 <= i <= |es|
        invariant total == Total(es[..i])
      {
        assert es[..i + 1][..i] == es[..i];
        total := total + es[i].amount;
        i := i + 1;
      }
      assert es[..|es|] == es;
    }

    method GetBudgetStatus(userId: nat, month: int, year: int, lookupFault: Option<StoreError>, listFault: Option<StoreError>)
      returns (r: Result<BudgetStatus, BudgetError>)
      ensures r == StatusOutcome(budgets.table.rows, expenses.rows, userId, month, year, lookupFault, listFault)
    {
      var found := budgets.GetByUserIDAndMonth(userId, month, year, lookupFault);
      if found.NotFound? {
        return Err(BudgetNotFound);
      }
      if found.Failed? {
        return Err(StoreFailed(found.error));
      }
      var spent := CalculateSpentAmount(userId, month, year, listFault);
      if spent.Err? {
        return Err(StoreFailed(spent.error));
      }
      r := Ok(ComputeStatus(found.row, spent.value));
    }
  }
}
