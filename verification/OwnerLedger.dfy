/** Accounts, their owners, and the per-owner index kept beside them. */
module OwnerLedger {
  import opened Checked
  import opened Prelude

  datatype Entry = Entry(from: string, to: string, amount: int)

  datatype Refusal =
    | NegativeOpening
    | AccountExists(account: string)
    | AmountNotPositive
    | UnknownAccount
    | InsufficientBalance(account: string)

  type Answer<+T> = Outcome<T, Refusal>

  datatype Books = Books(accounts: map<string, int>, ownerOf: map<string, string>, byOwner: map<string, int>)

  const EMPTY := Books(map[], map[], map[])

  /** What an owner holds, recomputed from the accounts. */
  ghost function OwnerSum(b: Books, owner: string): int
  {
    Sum(map a | a in b.accounts && a in b.ownerOf && b.ownerOf[a] == owner :: b.accounts[a])
  }

  function OwnerTotal(b: Books, owner: string): int {
    if owner in b.byOwner then b.byOwner[owner] else 0
  }

  /** The index agrees with the accounts for every owner, and no balance is negative. */
  ghost predicate Consistent(b: Books) {
    && b.accounts.Keys == b.ownerOf.Keys
    && (forall a :: a in b.accounts ==> 0 <= b.accounts[a] <= I64_MAX)
    && (forall o :: OwnerTotal(b, o) == OwnerSum(b, o))
  }

  // ---------------------------------------------------------------- operations

  function AfterOpen(b: Books, account: string, owner: string, amount: int): Answer<Books> {
    if amount < 0 then Refused(NegativeOpening)
    else if account in b.accounts then Refused(AccountExists(account))
    else
      match Add(b.byOwner, owner, amount)
      case Some(idx) => Done(Books(b.accounts[account := amount], b.ownerOf[account := owner], idx))
      case None => Overflow
  }

  function Check(accounts: map<string, int>, e: Entry): Option<Refusal> {
    if e.amount <= 0 then Some(AmountNotPositive)
    else if e.from !in accounts || e.to !in accounts then Some(UnknownAccount)
    else if accounts[e.from] < e.amount then Some(InsufficientBalance(e.from))
    else None
  }

  function OwnerOf(b: Books, account: string): string {
    if account in b.ownerOf then b.ownerOf[account] else ""
  }

  function AfterApply(b: Books, e: Entry): Answer<Books> {
    match Check(b.accounts, e)
    case Some(why) => Refused(why)
    case None =>
      match Move(b.accounts, e.from, e.to, e.amount)
      case None => Overflow
      case Some(accounts) =>
        if OwnerOf(b, e.from) == OwnerOf(b, e.to) then Done(b.(accounts := accounts)) else
        match Move(b.byOwner, OwnerOf(b, e.from), OwnerOf(b, e.to), e.amount)
        case None => Overflow
        case Some(byOwner) => Done(b.(accounts := accounts, byOwner := byOwner))
  }

  /** The entries one after the other; the first that is refused stops the batch. */
  function AfterAll(b: Books, es: seq<Entry>): Answer<Books> {
    if es == [] then Done(b) else
    match AfterAll(b, es[..|es| - 1])
    case Done(b') => AfterApply(b', es[|es| - 1])
    case Refused(why) => Refused(why)
    case Overflow => Overflow
  }

  /** The projection: decide the whole batch on a copy of the balances alone. */
  function Project(accounts: map<string, int>, es: seq<Entry>): Answer<map<string, int>> {
    if es == [] then Done(accounts) else
    match Project(accounts, es[..|es| - 1])
    case Done(acc) =>
      (match Check(acc, es[|es| - 1])
       case Some(why) => Refused(why)
       case None =>
         match Move(acc, es[|es| - 1].from, es[|es| - 1].to, es[|es| - 1].amount)
         case Some(acc') => Done(acc')
         case None => Overflow)
    case Refused(why) => Refused(why)
    case Overflow => Overflow
  }

  // ---------------------------------------------------------------- the index

  ghost function Owned(b: Books, owner: string): map<string, int> {
    map a | a in b.accounts && a in b.ownerOf && b.ownerOf[a] == owner :: b.accounts[a]
  }

  /** Rewriting one balance moves the sum of its owner and of nobody else. */
  lemma OwnerSumUpdate(b: Books, a: string, v: int, owner: string)
    requires a in b.accounts && a in b.ownerOf
    ensures OwnerSum(b.(accounts := b.accounts[a := v]), owner)
         == OwnerSum(b, owner) + (if b.ownerOf[a] == owner then v - b.accounts[a] else 0)
  {
    var b' := b.(accounts := b.accounts[a := v]);
    if b.ownerOf[a] == owner {
      assert Owned(b', owner) == Owned(b, owner)[a := v];
      SumUpdate(Owned(b, owner), a, v);
    } else {
      assert Owned(b', owner) == Owned(b, owner);
    }
  }

  lemma OwnerSumOpen(b: Books, a: string, who: string, v: int, owner: string)
    requires a !in b.accounts && a !in b.ownerOf
    ensures OwnerSum(Books(b.accounts[a := v], b.ownerOf[a := who], b.byOwner), owner)
         == OwnerSum(b, owner) + (if who == owner then v else 0)
  {
    var b' := Books(b.accounts[a := v], b.ownerOf[a := who], b.byOwner);
    if who == owner {
      assert Owned(b', owner) == Owned(b, owner)[a := v];
      SumUpdate(Owned(b, owner), a, v);
    } else {
      assert Owned(b', owner) == Owned(b, owner);
    }
  }

  lemma OpenConsistent(b: Books, account: string, owner: string, amount: int)
    requires Consistent(b) && IsI64(amount)
    requires AfterOpen(b, account, owner, amount).Done?
    ensures Consistent(AfterOpen(b, account, owner, amount).value)
    ensures Sum(AfterOpen(b, account, owner, amount).value.accounts) == Sum(b.accounts) + amount
  {
    var b' := AfterOpen(b, account, owner, amount).value;
    forall o
      ensures OwnerTotal(b', o) == OwnerSum(b', o)
    {
      OwnerSumOpen(b, account, owner, amount, o);
      assert Owned(b', o) == Owned(Books(b'.accounts, b'.ownerOf, b.byOwner), o);
    }
    SumUpdate(b.accounts, account, amount);
  }

  lemma OwnerSumMove(b: Books, from: string, to: string, amount: int, owner: string)
    requires b.accounts.Keys == b.ownerOf.Keys && from in b.accounts && to in b.accounts
    requires Move(b.accounts, from, to, amount).Some?
    ensures OwnerSum(b.(accounts := Move(b.accounts, from, to, amount).value), owner)
         == OwnerSum(b, owner) - (if b.ownerOf[from] == owner then amount else 0)
                               + (if b.ownerOf[to] == owner then amount else 0)
  {
    var b1 := b.(accounts := b.accounts[from := b.accounts[from] - amount]);
    OwnerSumUpdate(b, from, b1.accounts[from], owner);
    OwnerSumUpdate(b1, to, b1.accounts[to] + amount, owner);
    assert b1.(accounts := b1.accounts[to := b1.accounts[to] + amount])
        == b.(accounts := Move(b.accounts, from, to, amount).value);
  }

  /** One entry keeps the index in step with the accounts and the total where it was. */
  lemma ApplyConsistent(b: Books, e: Entry)
    requires Consistent(b) && AfterApply(b, e).Done?
    ensures Consistent(AfterApply(b, e).value)
    ensures Sum(AfterApply(b, e).value.accounts) == Sum(b.accounts)
    ensures AfterApply(b, e).value.ownerOf == b.ownerOf
  {
    var b' := AfterApply(b, e).value;
    MoveKeeps(b.accounts, e.from, e.to, e.amount);
    forall o
      ensures OwnerTotal(b', o) == OwnerSum(b', o)
    {
      ApplyIndexes(b, e, o);
    }
  }

  lemma ApplyIndexes(b: Books, e: Entry, o: string)
    requires b.accounts.Keys == b.ownerOf.Keys && AfterApply(b, e).Done?
    requires OwnerTotal(b, o) == OwnerSum(b, o)
    ensures OwnerTotal(AfterApply(b, e).value, o) == OwnerSum(AfterApply(b, e).value, o)
  {
    var b' := AfterApply(b, e).value;
    OwnerSumMove(b, e.from, e.to, e.amount, o);
    assert Owned(b', o) == Owned(b.(accounts := b'.accounts), o);
  }

  lemma {:induction false} ApplyAllConsistent(b: Books, es: seq<Entry>)
    requires Consistent(b) && AfterAll(b, es).Done?
    ensures Consistent(AfterAll(b, es).value)
    ensures Sum(AfterAll(b, es).value.accounts) == Sum(b.accounts)
    ensures AfterAll(b, es).value.ownerOf == b.ownerOf
  {
    if es != [] {
      ApplyAllConsistent(b, es[..|es| - 1]);
      ApplyConsistent(AfterAll(b, es[..|es| - 1]).value, es[|es| - 1]);
    }
  }

  // ---------------------------------------------------------------- one entry, one batch

  /** What one entry decides, in full: it is accepted exactly when it moves a positive amount that
      is there between two known accounts, and moves it from the one to the other. */
  lemma ApplyExact(b: Books, e: Entry)
    requires Consistent(b) && Sum(b.accounts) <= I64_MAX
    ensures AfterApply(b, e).Done? <==>
              e.from in b.accounts && e.to in b.accounts && 0 < e.amount <= b.accounts[e.from]
    ensures !AfterApply(b, e).Overflow?
    ensures AfterApply(b, e).Done? ==>
              var b' := AfterApply(b, e).value;
              && b'.ownerOf == b.ownerOf && b'.accounts.Keys == b.accounts.Keys
              && forall a :: a in b.accounts ==> b'.accounts[a] == b.accounts[a] + Net(e, a)
    ensures AfterApply(b, e).Refused? ==>
              AfterApply(b, e).why ==
                (if e.amount <= 0 then AmountNotPositive
                 else if e.from in b.accounts && e.to in b.accounts then InsufficientBalance(e.from)
                 else UnknownAccount)
  {
    ApplyFits(b, e);
  }

  /** What one entry does to an account, and what a batch does. */
  ghost function Net(e: Entry, account: string): int {
    (if account == e.to then e.amount else 0) - (if account == e.from then e.amount else 0)
  }

  ghost function NetAll(es: seq<Entry>, account: string): int {
    if es == [] then 0 else NetAll(es[..|es| - 1], account) + Net(es[|es| - 1], account)
  }

  /** An accepted batch gives every account what it is credited less what it is debited. */
  lemma {:induction false} BatchNets(b: Books, es: seq<Entry>, account: string)
    requires Consistent(b) && AfterAll(b, es).Done? && account in b.accounts
    ensures account in AfterAll(b, es).value.accounts
    ensures AfterAll(b, es).value.accounts[account] == b.accounts[account] + NetAll(es, account)
  {
    if es != [] {
      hide AfterApply, Consistent;
      BatchNets(b, es[..|es| - 1], account);
      ApplyAllConsistent(b, es[..|es| - 1]);
      ApplyNets(AfterAll(b, es[..|es| - 1]).value, es[|es| - 1], account);
    }
  }

  lemma ApplyNets(b: Books, e: Entry, account: string)
    requires AfterApply(b, e).Done? && account in b.accounts
    ensures account in AfterApply(b, e).value.accounts
    ensures AfterApply(b, e).value.accounts[account] == b.accounts[account] + Net(e, account)
  {
  }

  /** The entry after an accepted batch, judged by what the batch left. */
  lemma NextFinds(b: Books, es: seq<Entry>, e: Entry)
    requires Consistent(b) && Sum(b.accounts) <= I64_MAX && AfterAll(b, es).Done?
    ensures AfterApply(AfterAll(b, es).value, e).Done? <==>
              && e.from in b.accounts && e.to in b.accounts
              && 0 < e.amount <= b.accounts[e.from] + NetAll(es, e.from)
    ensures !AfterApply(AfterAll(b, es).value, e).Overflow?
  {
    ApplyAllConsistent(b, es);
    ApplyExact(AfterAll(b, es).value, e);
    AccountsStay(b, es);
    if e.from in b.accounts { BatchNets(b, es, e.from); }
  }

  lemma AllGrows(b: Books, es: seq<Entry>)
    requires es != []
    ensures AfterAll(b, es) == match AfterAll(b, es[..|es| - 1])
                               case Done(b') => AfterApply(b', es[|es| - 1])
                               case Refused(why) => Refused(why)
                               case Overflow => Overflow
    ensures forall i :: 0 <= i < |es| - 1 ==> (Finds(b, es, i) <==> Finds(b, es[..|es| - 1], i))
  {
    forall i | 0 <= i < |es| - 1 ensures Finds(b, es, i) <==> Finds(b, es[..|es| - 1], i) {
      assert es[..i] == es[..|es| - 1][..i];
    }
  }

  /** A batch is accepted exactly when every entry finds its money once those before it are
      netted; otherwise the reason is that of the first that does not. */
  lemma {:induction false} BatchExact(b: Books, es: seq<Entry>) returns (i: nat)
    requires Consistent(b) && Sum(b.accounts) <= I64_MAX
    ensures AfterAll(b, es).Done? <==> forall j :: 0 <= j < |es| ==> Finds(b, es, j)
    ensures !AfterAll(b, es).Overflow?
    ensures AfterAll(b, es).Refused? ==>
              && i < |es| && !Finds(b, es, i) && (forall j :: 0 <= j < i ==> Finds(b, es, j))
              && AfterAll(b, es[..i]).Done?
              && AfterApply(AfterAll(b, es[..i]).value, es[i]) == Refused(AfterAll(b, es).why)
  {
    hide AfterAll, AfterApply, Consistent, Sum, Finds;
    i := 0;
    if es == [] {
      NothingApplied(b);
    } else {
      var init, last := es[..|es| - 1], es[|es| - 1];
      i := BatchExact(b, init);
      AllGrows(b, es);
      if AfterAll(b, init).Done? {
        NextFinds(b, init, last);
        FindsIs(b, es, |es| - 1);
        i := |es| - 1;
        assert AfterAll(b, es).Done? <==> Finds(b, es, i);
        assert forall j :: 0 <= j < i ==> Finds(b, init, j);
      } else {
        assert es[..i] == init[..i];
        assert !Finds(b, init, i) && !Finds(b, es, i);
      }
    }
  }

  lemma NothingApplied(b: Books)
    ensures AfterAll(b, []) == Done(b)
  {
  }

  lemma FindsIs(b: Books, es: seq<Entry>, i: nat)
    requires i < |es|
    ensures Finds(b, es, i) <==>
              && es[i].from in b.accounts && es[i].to in b.accounts
              && 0 < es[i].amount <= b.accounts[es[i].from] + NetAll(es[..i], es[i].from)
  {
  }

  ghost predicate Finds(b: Books, es: seq<Entry>, i: nat)
    requires i < |es|
  {
    && es[i].from in b.accounts && es[i].to in b.accounts
    && 0 < es[i].amount <= b.accounts[es[i].from] + NetAll(es[..i], es[i].from)
  }

  lemma {:induction false} AccountsStay(b: Books, es: seq<Entry>)
    requires AfterAll(b, es).Done?
    ensures AfterAll(b, es).value.accounts.Keys == b.accounts.Keys
  {
    if es != [] { AccountsStay(b, es[..|es| - 1]); }
  }

  /** An opening is accepted exactly for a new account and an amount that is not negative. */
  lemma OpenExact(b: Books, account: string, owner: string, amount: int)
    requires Consistent(b) && IsI64(amount) && Sum(b.accounts) + amount <= I64_MAX
    ensures AfterOpen(b, account, owner, amount).Done? <==> amount >= 0 && account !in b.accounts
    ensures !AfterOpen(b, account, owner, amount).Overflow?
    ensures AfterOpen(b, account, owner, amount).Done? ==>
              var b' := AfterOpen(b, account, owner, amount).value;
              && b'.accounts == b.accounts[account := amount] && b'.ownerOf == b.ownerOf[account := owner]
              && (forall o :: OwnerTotal(b', o) == OwnerTotal(b, o) + if o == owner then amount else 0)
    ensures AfterOpen(b, account, owner, amount).Refused? ==>
              AfterOpen(b, account, owner, amount).why ==
                (if amount < 0 then NegativeOpening else AccountExists(account))
  {
    OwnersBounded(b, owner, owner);
    assert OwnerTotal(b, owner) == OwnerSum(b, owner);
  }

  // ---------------------------------------------------------------- the projection

  /** The projection and the sequential application say the same thing about a batch:
      same acceptance, same balances, same refusal. */
  lemma {:induction false} ProjectionDecides(b: Books, es: seq<Entry>)
    requires !AfterAll(b, es).Overflow?
    ensures Project(b.accounts, es).Done? <==> AfterAll(b, es).Done?
    ensures Project(b.accounts, es).Done? ==> Project(b.accounts, es).value == AfterAll(b, es).value.accounts
    ensures AfterAll(b, es).Refused? ==> Project(b.accounts, es) == Refused(AfterAll(b, es).why)
  {
    if es != [] {
      ProjectionDecides(b, es[..|es| - 1]);
    }
  }

  /** A batch that is accepted as a whole has every prefix accepted. */
  lemma {:induction false} AcceptedPrefix(b: Books, es: seq<Entry>, n: nat)
    requires n <= |es| && AfterAll(b, es).Done?
    ensures AfterAll(b, es[..n]).Done?
    decreases |es| - n
  {
    if n < |es| {
      AcceptedPrefix(b, es, n + 1);
      assert es[..n + 1][..n] == es[..n];
    } else {
      assert es[..n] == es;
    }
  }

  /** If what the ledger holds fits an i64, no entry of any batch overflows. */
  lemma {:induction false} NoOverflow(b: Books, es: seq<Entry>)
    requires Consistent(b) && Sum(b.accounts) <= I64_MAX
    ensures !AfterAll(b, es).Overflow?
  {
    if es != [] {
      NoOverflow(b, es[..|es| - 1]);
      if AfterAll(b, es[..|es| - 1]).Done? {
        ApplyAllConsistent(b, es[..|es| - 1]);
        ApplyFits(AfterAll(b, es[..|es| - 1]).value, es[|es| - 1]);
      }
    }
  }

  /** An owner never holds more than the whole ledger, and no two owners together do. */
  lemma OwnersBounded(b: Books, o1: string, o2: string)
    requires Consistent(b)
    ensures 0 <= OwnerSum(b, o1) <= Sum(b.accounts)
    ensures forall a :: a in b.accounts && b.ownerOf[a] == o1 ==> b.accounts[a] <= OwnerSum(b, o1)
    ensures o1 != o2 ==> OwnerSum(b, o1) + OwnerSum(b, o2) <= Sum(b.accounts)
  {
    SumBounds(Owned(b, o1));
    SumSubmap(Owned(b, o1), b.accounts);
    forall a | a in b.accounts && b.ownerOf[a] == o1
      ensures b.accounts[a] <= OwnerSum(b, o1)
    {
      assert a in Owned(b, o1);
    }
    if o1 != o2 {
      SumUnion(Owned(b, o1), Owned(b, o2));
      SumSubmap(Owned(b, o1) + Owned(b, o2), b.accounts);
    }
  }

  lemma ApplyFits(b: Books, e: Entry)
    requires Consistent(b) && Sum(b.accounts) <= I64_MAX
    ensures !AfterApply(b, e).Overflow?
  {
    if Check(b.accounts, e) == None {
      MoveFits(b.accounts, e.from, e.to, e.amount);
      var o1, o2 := OwnerOf(b, e.from), OwnerOf(b, e.to);
      OwnersBounded(b, o1, o2);
      OwnersBounded(b, o2, o1);
      assert OwnerTotal(b, o1) == OwnerSum(b, o1) && OwnerTotal(b, o2) == OwnerSum(b, o2);
    }
  }

  // ---------------------------------------------------------------- whole runs

  datatype Op =
    | OpOpen(account: string, owner: string, opening: int)
    | OpApply(entry: Entry)
    | OpAtomic(entries: seq<Entry>)

  function Perform(b: Books, op: Op): Answer<Books> {
    match op
    case OpOpen(account, owner, opening) => AfterOpen(b, account, owner, opening)
    case OpApply(entry) => AfterApply(b, entry)
    case OpAtomic(entries) => AfterAll(b, entries)
  }

  /** The ledger after a run from empty, and the money its accepted openings brought in;
      None once an addition has overflowed. */
  function Run(ops: seq<Op>): Option<(Books, int)> {
    if ops == [] then Some((EMPTY, 0)) else
    match Run(ops[..|ops| - 1])
    case None => None
    case Some((b, paidIn)) =>
      var op := ops[|ops| - 1];
      match Perform(b, op)
      case Done(b') => Some((b', paidIn + if op.OpOpen? then op.opening else 0))
      case Refused(_) => Some((b, paidIn))
      case Overflow => None
  }

  ghost predicate OpeningsAreI64(ops: seq<Op>) {
    forall i :: 0 <= i < |ops| && ops[i].OpOpen? ==> IsI64(ops[i].opening)
  }

  /** Any run: the index equals the recomputed sums, no balance is negative, and the
      total is exactly what the accepted openings brought in. */
  lemma {:induction false} RunConsistent(ops: seq<Op>)
    requires OpeningsAreI64(ops) && Run(ops).Some?
    ensures Consistent(Run(ops).value.0)
    ensures Sum(Run(ops).value.0.accounts) == Run(ops).value.1
  {
    if ops == [] {
      forall o ensures OwnerSum(EMPTY, o) == 0 { assert Owned(EMPTY, o) == map[]; }
    } else {
      RunConsistent(ops[..|ops| - 1]);
      var b := Run(ops[..|ops| - 1]).value.0;
      match ops[|ops| - 1]
      case OpOpen(account, owner, opening) =>
        if AfterOpen(b, account, owner, opening).Done? { OpenConsistent(b, account, owner, opening); }
      case OpApply(entry) =>
        if AfterApply(b, entry).Done? { ApplyConsistent(b, entry); }
      case OpAtomic(entries) =>
        if AfterAll(b, entries).Done? { ApplyAllConsistent(b, entries); }
    }
  }

  ghost function Openings(ops: seq<Op>): int {
    if ops == [] then 0 else
      Openings(ops[..|ops| - 1])
      + if ops[|ops| - 1].OpOpen? && ops[|ops| - 1].opening > 0 then ops[|ops| - 1].opening else 0
  }

  /** When all the money ever offered fits an i64, no run overflows anywhere: neither in a
      balance nor in the index. */
  lemma {:induction false} RunNeverOverflows(ops: seq<Op>)
    requires OpeningsAreI64(ops) && Openings(ops) <= I64_MAX
    ensures Run(ops).Some? && 0 <= Run(ops).value.1 <= Openings(ops)
  {
    if ops != [] {
      var before := ops[..|ops| - 1];
      RunNeverOverflows(before);
      RunConsistent(before);
      var b := Run(before).value.0;
      match ops[|ops| - 1]
      case OpOpen(account, owner, opening) =>
        OwnersBounded(b, owner, owner);
        assert OwnerTotal(b, owner) == OwnerSum(b, owner);
      case OpApply(entry) => ApplyFits(b, entry);
      case OpAtomic(entries) => NoOverflow(b, entries);
    }
  }

  // ---------------------------------------------------------------- the class

  class Ledger {
    var accounts: map<string, int>
    var ownerOf: map<string, string>
    var byOwner: map<string, int>

    function View(): Books
      reads this
    {
      Books(accounts, ownerOf, byOwner)
    }

    constructor ()
      ensures View() == EMPTY
    {
      accounts, ownerOf, byOwner := map[], map[], map[];
    }

    constructor Clone(other: Ledger)
      ensures View() == other.View()
    {
      accounts, ownerOf, byOwner := other.accounts, other.ownerOf, other.byOwner;
    }

    method Open(account: string, owner: string, amount: int) returns (r: Answer<()>)
      modifies this
      ensures match AfterOpen(old(View()), account, owner, amount)
              case Done(b) => r == Done(()) && View() == b
              case Refused(why) => r == Refused(why) && View() == old(View())
              case Overflow => r == Overflow
    {
      if amount < 0 { return Refused(NegativeOpening); }
      if account in accounts { return Refused(AccountExists(account)); }
      accounts := accounts[account := amount];
      ownerOf := ownerOf[account := owner];
      var more := Add(byOwner, owner, amount);
      if more.None? { return Overflow; }
      byOwner := more.value;
      return Done(());
    }

    method Apply(entry: Entry) returns (r: Answer<()>)
      modifies this
      ensures match AfterApply(old(View()), entry)
              case Done(b) => r == Done(()) && View() == b
              case Refused(why) => r == Refused(why) && View() == old(View())
              case Overflow => r == Overflow
    {
      var refusal := Check(accounts, entry);
      if refusal.Some? { return Refused(refusal.value); }
      var fromOwner := if entry.from in ownerOf then ownerOf[entry.from] else "";
      var toOwner := if entry.to in ownerOf then ownerOf[entry.to] else "";
      var debited := Add(accounts, entry.from, -entry.amount);
      if debited.None? { return Overflow; }
      accounts := debited.value;
      var credited := Add(accounts, entry.to, entry.amount);
      if credited.None? { return Overflow; }
      accounts := credited.value;
      if fromOwner != toOwner {
        var less := Add(byOwner, fromOwner, -entry.amount);
        if less.None? { return Overflow; }
        byOwner := less.value;
        var more := Add(byOwner, toOwner, entry.amount);
        if more.None? { return Overflow; }
        byOwner := more.value;
      }
      return Done(());
    }

    /** All or nothing on a clone that replaces the ledger at the end. */
    method ApplyAtomic(entries: seq<Entry>) returns (r: Answer<nat>)
      modifies this
      ensures match AfterAll(old(View()), entries)
              case Done(b) => r == Done(|entries|) && View() == b
              case Refused(why) => r == Refused(why) && View() == old(View())
              case Overflow => r == Overflow
    {
      var temp := new Ledger.Clone(this);
      for i := 0 to |entries|
        invariant fresh(temp) && View() == old(View())
        invariant AfterAll(View(), entries[..i]) == Done(temp.View())
      {
        assert entries[..i + 1][..i] == entries[..i];
        var applied := temp.Apply(entries[i]);
        if !applied.Done? {
          StopsAt(View(), entries, i + 1);
          return match applied case Refused(why) => Refused(why) case _ => Overflow;
        }
      }
      assert entries[..|entries|] == entries;
      accounts, ownerOf, byOwner := temp.accounts, temp.ownerOf, temp.byOwner;
      return Done(|entries|);
    }

    /** All or nothing by deciding on a projection of the balances, then applying. */
    method ApplyProjected(entries: seq<Entry>) returns (r: Answer<nat>)
      modifies this
      ensures match AfterAll(old(View()), entries)
              case Done(b) => r == Done(|entries|) && View() == b
              case Refused(why) => r == Refused(why) && View() == old(View())
              case Overflow =>
                match Project(old(accounts), entries)
                case Refused(why) => r == Refused(why) && View() == old(View())
                case _ => r == Overflow
    {
      var decided := Decide(entries);
      if !AfterAll(View(), entries).Overflow? { ProjectionDecides(View(), entries); }
      if decided.Refused? { return Refused(decided.why); }
      if decided.Overflow? { return Overflow; }
      for i := 0 to |entries|
        invariant AfterAll(old(View()), entries[..i]) == Done(View())
      {
        assert entries[..i + 1][..i] == entries[..i];
        var applied := Apply(entries[i]);
        if !applied.Done? {
          StopsAt(old(View()), entries, i + 1);
          return match applied case Refused(why) => Refused(why) case _ => Overflow;
        }
      }
      assert entries[..|entries|] == entries;
      return Done(|entries|);
    }

    /** The projection loop: nothing in the ledger moves. */
    method Decide(entries: seq<Entry>) returns (r: Answer<map<string, int>>)
      ensures r == Project(accounts, entries)
    {
      var projected := accounts;
      for i := 0 to |entries|
        invariant Project(accounts, entries[..i]) == Done(projected)
      {
        var entry := entries[i];
        assert entries[..i + 1][..i] == entries[..i] && entries[..i + 1][i] == entry;
        if !Project(accounts, entries[..i + 1]).Done? { ProjectStopsAt(accounts, entries, i + 1); }
        if entry.amount <= 0 { return Refused(AmountNotPositive); }
        if entry.from !in projected { return Refused(UnknownAccount); }
        var from := projected[entry.from];
        if entry.to !in projected { return Refused(UnknownAccount); }
        if from < entry.amount { return Refused(InsufficientBalance(entry.from)); }
        var debited := Add(projected, entry.from, -entry.amount);
        if debited.None? { return Overflow; }
        var credited := Add(debited.value, entry.to, entry.amount);
        if credited.None? { return Overflow; }
        projected := credited.value;
      }
      assert entries[..|entries|] == entries;
      return Done(projected);
    }
  }

  /** Once a prefix is not accepted, the batch ends the way the prefix did. */
  lemma {:induction false} StopsAt(b: Books, es: seq<Entry>, n: nat)
    requires n <= |es| && !AfterAll(b, es[..n]).Done?
    ensures AfterAll(b, es) == AfterAll(b, es[..n])
    decreases |es|
  {
    if n == |es| {
      assert es[..n] == es;
    } else {
      assert es[..|es| - 1][..n] == es[..n];
      StopsAt(b, es[..|es| - 1], n);
    }
  }

  lemma {:induction false} ProjectStopsAt(accounts: map<string, int>, es: seq<Entry>, n: nat)
    requires n <= |es| && !Project(accounts, es[..n]).Done?
    ensures Project(accounts, es) == Project(accounts, es[..n])
    decreases |es|
  {
    if n == |es| {
      assert es[..n] == es;
    } else {
      assert es[..|es| - 1][..n] == es[..n];
      ProjectStopsAt(accounts, es[..|es| - 1], n);
    }
  }
}
