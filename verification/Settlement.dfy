/** Holds over named accounts, and their settlement with a fee in basis points. */
module Settlement {
  import opened Checked
  import opened Prelude

  const FEES_ACCOUNT := "fees"

  datatype Hold = Hold(id: nat, from: string, to: string, amount: int, settled: bool)

  datatype Refusal =
    | NegativeOpening
    | AccountExists(account: string)
    | UnknownAccount
    | AmountNotPositive
    | InsufficientBalance(account: string)
    | UnknownHold(id: nat)
    | AlreadySettled(id: nat)
    | FeeOverflow
    | FeeExceedsAmount
    | FeesAccountFull

  type Answer<+T> = Outcome<T, Refusal>

  /** The ledger's accounts, the holds, and the next hold id. */
  datatype State = State(accounts: map<string, int>, holds: seq<Hold>, nextId: nat)

  const EMPTY := State(map[], [], 0)

  // ---------------------------------------------------------------- arithmetic

  const I128_MAX: int := 0x7fff_ffff_ffff_ffff_ffff_ffff_ffff_ffff

  /** `i128::checked_mul`. */
  function CheckedMul128(a: int, b: int): Option<int> {
    if -I128_MAX - 1 <= a * b <= I128_MAX then Some(a * b) else None
  }

  /** Division by a positive number, truncating toward zero. */
  function TruncDiv(a: int, b: int): int
    requires b > 0
  {
    if a >= 0 then a / b else -((-a) / b)
  }

  function Fee(amount: int, bps: int): Option<int> {
    match CheckedMul128(amount, bps)
    case Some(p) => if TruncDiv(p, 10_000) > I64_MAX then None else Some(TruncDiv(p, 10_000))
    case None => None
  }

  /** The widened product of any i64 and any u64 fits: the overflow error of the
      multiplication is unreachable. */
  lemma FeeProductFits(amount: int, bps: int)
    requires IsI64(amount) && 0 <= bps <= U64_MAX
    ensures CheckedMul128(amount, bps) == Some(amount * bps)
  {
    if amount >= 0 {
      ProductMonotone(amount, bps, I64_MAX, U64_MAX);
    } else {
      ProductMonotone(-amount, bps, I64_MAX + 1, U64_MAX);
      assert (-amount) * bps == -(amount * bps);
    }
  }

  lemma ProductMonotone(a: int, b: int, c: int, d: int)
    requires 0 <= a <= c && 0 <= b <= d
    ensures 0 <= a * b <= c * d
  {
    assert a * b <= a * d <= c * d;
  }

  /** The fee is the floor of amount * bps / 10000, and rates up to 10000 never exceed
      the amount. */
  lemma FeeIsFloor(amount: int, bps: int)
    requires 0 < amount <= I64_MAX && 0 <= bps <= U64_MAX
    ensures Fee(amount, bps).Some? ==>
              var fee := Fee(amount, bps).value;
              0 <= fee && fee * 10_000 <= amount * bps < (fee + 1) * 10_000
    ensures Fee(amount, bps).None? <==> amount * bps >= (I64_MAX + 1) * 10_000
    ensures bps <= 10_000 ==> Fee(amount, bps).Some? && Fee(amount, bps).value <= amount
    ensures (Fee(amount, bps).Some? && Fee(amount, bps).value <= amount)
       <==> amount * bps < (amount + 1) * 10_000
  {
    FeeProductFits(amount, bps);
    ProductMonotone(amount, bps, I64_MAX, U64_MAX);
    FloorOf(amount * bps, amount);
    if bps <= 10_000 {
      ProductMonotone(amount, bps, amount, 10_000);
    }
  }

  lemma FloorOf(p: int, amount: int)
    requires p >= 0
    ensures 0 <= p / 10_000 && (p / 10_000) * 10_000 <= p < (p / 10_000 + 1) * 10_000
    ensures p / 10_000 <= amount <==> p < (amount + 1) * 10_000
    ensures p <= amount * 10_000 ==> p / 10_000 <= amount
    ensures p / 10_000 > I64_MAX <==> p >= (I64_MAX + 1) * 10_000
  {
  }

  // ---------------------------------------------------------------- operations

  function AfterOpen(st: State, account: string, amount: int): Answer<State> {
    if amount < 0 then Refused(NegativeOpening)
    else if account in st.accounts then Refused(AccountExists(account))
    else Done(st.(accounts := st.accounts[account := amount]))
  }

  function Balance(accounts: map<string, int>, account: string): int {
    if account in accounts then accounts[account] else 0
  }

  function AfterHold(st: State, from: string, to: string, amount: int): Answer<State> {
    if from !in st.accounts || to !in st.accounts then Refused(UnknownAccount)
    else if amount <= 0 then Refused(AmountNotPositive)
    else if st.accounts[from] < amount then Refused(InsufficientBalance(from))
    else
      match Move(st.accounts, from, to, amount)
      case None => Overflow
      case Some(accounts) =>
        if st.nextId == U64_MAX then Overflow
        else Done(State(accounts, st.holds + [Hold(st.nextId, from, to, amount, false)], st.nextId + 1))
  }

  /** Index of the first hold with an id. */
  function FindHold(holds: seq<Hold>, id: nat): (i: Option<nat>)
    ensures i.Some? ==> i.value < |holds| && holds[i.value].id == id
    ensures i.None? ==> forall k :: 0 <= k < |holds| ==> holds[k].id != id
    decreases |holds|
  {
    if holds == [] then None
    else if holds[0].id == id then Some(0)
    else
      match FindHold(holds[1..], id)
      case Some(i) => Some(i + 1)
      case None => None
  }

  function MarkSettled(holds: seq<Hold>, i: nat): seq<Hold>
    requires i < |holds|
  {
    holds[i := holds[i].(settled := true)]
  }

  function AfterSettle(st: State, id: nat): Answer<State> {
    match FindHold(st.holds, id)
    case None => Refused(UnknownHold(id))
    case Some(i) =>
      if st.holds[i].settled then Refused(AlreadySettled(id))
      else Done(st.(holds := MarkSettled(st.holds, i)))
  }

  /** Settling with a fee yields the new state and the fee. */
  function AfterSettleWithFee(st: State, id: nat, bps: int): Answer<(State, int)> {
    match FindHold(st.holds, id)
    case None => Refused(UnknownHold(id))
    case Some(i) =>
      var hold := st.holds[i];
      if hold.settled then Refused(AlreadySettled(id))
      else if FEES_ACCOUNT !in st.accounts then Refused(UnknownAccount)
      else
        match Fee(hold.amount, bps)
        case None => Refused(FeeOverflow)
        case Some(fee) =>
          if fee > hold.amount then Refused(FeeExceedsAmount)
          else if Balance(st.accounts, hold.to) < fee then Refused(InsufficientBalance(hold.to))
          else if Balance(st.accounts, FEES_ACCOUNT) > I64_MAX - fee then Refused(FeesAccountFull)
          else
            match Move(st.accounts, hold.to, FEES_ACCOUNT, fee)
            case None => Overflow
            case Some(accounts) => Done((State(accounts, MarkSettled(st.holds, i), st.nextId), fee))
  }

  // ---------------------------------------------------------------- invariants

  ghost predicate Sound(st: State) {
    && (forall a :: a in st.accounts ==> 0 <= st.accounts[a] <= I64_MAX)
    && st.nextId == |st.holds| <= U64_MAX
    && (forall i :: 0 <= i < |st.holds| ==>
          && st.holds[i].id == i
          && 0 < st.holds[i].amount <= I64_MAX
          && st.holds[i].to in st.accounts)
  }

  /** What the fee settlement decides, in full: it goes through exactly under these
      conditions, and then moves the floor fee and settles that one hold. */
  lemma SettleWithFeeExact(st: State, id: nat, bps: int)
    requires Sound(st) && 0 <= bps <= U64_MAX
    ensures AfterSettleWithFee(st, id, bps).Done? <==>
              && id < |st.holds| && !st.holds[id].settled
              && FEES_ACCOUNT in st.accounts
              && st.holds[id].amount * bps < (st.holds[id].amount + 1) * 10_000
              && st.accounts[st.holds[id].to] >= st.holds[id].amount * bps / 10_000
              && st.accounts[FEES_ACCOUNT] + st.holds[id].amount * bps / 10_000 <= I64_MAX
    ensures !AfterSettleWithFee(st, id, bps).Overflow?
    ensures AfterSettleWithFee(st, id, bps).Done? ==>
              var (st', fee) := AfterSettleWithFee(st, id, bps).value;
              && fee == st.holds[id].amount * bps / 10_000 <= st.holds[id].amount
              && Sound(st')
              && Sum(st'.accounts) == Sum(st.accounts)
              && st'.accounts == (if st.holds[id].to == FEES_ACCOUNT then st.accounts else
                   st.accounts[st.holds[id].to := st.accounts[st.holds[id].to] - fee]
                              [FEES_ACCOUNT := st.accounts[FEES_ACCOUNT] + fee])
              && st'.holds == st.holds[id := st.holds[id].(settled := true)]
  {
    if id < |st.holds| {
      var hold := st.holds[id];
      FeeIsFloor(hold.amount, bps);
      FeeProductFits(hold.amount, bps);
      if AfterSettleWithFee(st, id, bps).Done? {
        var fee := AfterSettleWithFee(st, id, bps).value.1;
        MoveKeeps(st.accounts, hold.to, FEES_ACCOUNT, fee);
      }
    }
  }

  /** An account is opened exactly when it is new and its amount is not negative; the total grows by
      that amount and no hold is touched. */
  lemma OpenExact(st: State, account: string, amount: int)
    ensures AfterOpen(st, account, amount).Done? <==> amount >= 0 && account !in st.accounts
    ensures AfterOpen(st, account, amount).Refused? ==>
              AfterOpen(st, account, amount).why == (if amount < 0 then NegativeOpening else AccountExists(account))
    ensures AfterOpen(st, account, amount).Done? ==>
              var st' := AfterOpen(st, account, amount).value;
              && st'.accounts.Keys == st.accounts.Keys + {account} && st'.accounts[account] == amount
              && (forall a :: a in st.accounts ==> st'.accounts[a] == st.accounts[a])
              && Sum(st'.accounts) == Sum(st.accounts) + amount
              && st'.holds == st.holds && st'.nextId == st.nextId
  {
    SumUpdate(st.accounts, account, amount);
  }

  /** What a hold decides, in full: it goes through exactly when both accounts exist, the amount is
      positive and the payer has it; then the payer is down by it, the payee up, and the record of
      who pays whom is the last hold, under the next id. */
  lemma HoldExact(st: State, from: string, to: string, amount: int)
    requires Sound(st) && IsI64(amount) && Sum(st.accounts) <= I64_MAX
    ensures AfterHold(st, from, to, amount).Done? <==>
              from in st.accounts && to in st.accounts && 0 < amount <= st.accounts[from] && st.nextId < U64_MAX
    ensures AfterHold(st, from, to, amount).Overflow? ==> st.nextId == U64_MAX
    ensures AfterHold(st, from, to, amount).Done? ==>
              var st' := AfterHold(st, from, to, amount).value;
              && st'.accounts.Keys == st.accounts.Keys
              && (forall a :: a in st.accounts ==>
                    st'.accounts[a] == st.accounts[a] - (if a == from then amount else 0)
                                                      + (if a == to then amount else 0))
              && st'.holds == st.holds + [Hold(st.nextId, from, to, amount, false)]
              && st'.nextId == st.nextId + 1
    ensures AfterHold(st, from, to, amount).Refused? ==>
              AfterHold(st, from, to, amount).why ==
                (if from in st.accounts && to in st.accounts
                 then if amount > 0 then InsufficientBalance(from) else AmountNotPositive else UnknownAccount)
  {
    if from in st.accounts && to in st.accounts && 0 < amount <= st.accounts[from] {
      MoveFits(st.accounts, from, to, amount);
    }
  }

  /** A plain settlement goes through exactly once per hold, and only marks it. */
  lemma SettleExact(st: State, id: nat)
    requires Sound(st)
    ensures AfterSettle(st, id).Done? <==> id < |st.holds| && !st.holds[id].settled
    ensures AfterSettle(st, id).Refused? ==>
              AfterSettle(st, id).why == (if id < |st.holds| then AlreadySettled(id) else UnknownHold(id))
    ensures AfterSettle(st, id).Done? ==>
              var st' := AfterSettle(st, id).value;
              && st'.accounts == st.accounts && st'.nextId == st.nextId && |st'.holds| == |st.holds|
              && (forall i :: 0 <= i < |st.holds| && i != id ==> st'.holds[i] == st.holds[i])
              && st'.holds[id] == st.holds[id].(settled := true)
              && AfterSettle(st', id) == Refused(AlreadySettled(id))
  {
    if AfterSettle(st, id).Done? { SettledOnce(AfterSettle(st, id).value, id); }
  }

  lemma SettledOnce(st: State, id: nat)
    requires id < |st.holds| && (forall i :: 0 <= i < |st.holds| ==> st.holds[i].id == i) && st.holds[id].settled
    ensures AfterSettle(st, id) == Refused(AlreadySettled(id))
  {
  }

  lemma HoldSound(st: State, from: string, to: string, amount: int)
    requires Sound(st) && IsI64(amount)
    requires AfterHold(st, from, to, amount).Done?
    ensures Sound(AfterHold(st, from, to, amount).value)
    ensures Sum(AfterHold(st, from, to, amount).value.accounts) == Sum(st.accounts)
  {
    MoveKeeps(st.accounts, from, to, amount);
  }

  // ---------------------------------------------------------------- whole runs

  datatype Op =
    | OpOpen(account: string, opening: int)
    | OpHold(from: string, to: string, amount: int)
    | OpSettle(id: nat)
    | OpSettleWithFee(id: nat, bps: int)

  datatype Receipt = Receipt(id: nat, bps: int, fee: int)

  /** A run so far: the state, the openings accepted, and every fee collected. */
  datatype History = History(st: State, paidIn: int, receipts: seq<Receipt>)

  ghost predicate InRange(op: Op) {
    match op
    case OpOpen(_, opening) => IsI64(opening)
    case OpHold(_, _, amount) => IsI64(amount)
    case OpSettle(_) => true
    case OpSettleWithFee(_, bps) => 0 <= bps <= U64_MAX
  }

  function Perform(h: History, op: Op): Answer<History> {
    match op
    case OpOpen(account, opening) =>
      (match AfterOpen(h.st, account, opening)
       case Done(st) => Done(h.(st := st, paidIn := h.paidIn + opening))
       case Refused(why) => Refused(why)
       case Overflow => Overflow)
    case OpHold(from, to, amount) =>
      (match AfterHold(h.st, from, to, amount)
       case Done(st) => Done(h.(st := st))
       case Refused(why) => Refused(why)
       case Overflow => Overflow)
    case OpSettle(id) =>
      (match AfterSettle(h.st, id)
       case Done(st) => Done(h.(st := st))
       case Refused(why) => Refused(why)
       case Overflow => Overflow)
    case OpSettleWithFee(id, bps) =>
      (match AfterSettleWithFee(h.st, id, bps)
       case Done(sf) => Done(h.(st := sf.0, receipts := h.receipts + [Receipt(id, bps, sf.1)]))
       case Refused(why) => Refused(why)
       case Overflow => Overflow)
  }

  /** The history of a run from empty; None once an addition has overflowed. */
  function Run(ops: seq<Op>): Option<History> {
    if ops == [] then Some(History(EMPTY, 0, [])) else
    match Run(ops[..|ops| - 1])
    case None => None
    case Some(h) =>
      match Perform(h, ops[|ops| - 1])
      case Done(h') => Some(h')
      case Refused(_) => Some(h)
      case Overflow => None
  }

  ghost predicate Accounted(h: History) {
    && Sound(h.st)
    && Sum(h.st.accounts) == h.paidIn
    && (forall i, j :: 0 <= i < j < |h.receipts| ==> h.receipts[i].id != h.receipts[j].id)
    && (forall i :: 0 <= i < |h.receipts| ==> Charged(h.st, h.receipts[i]))
  }

  /** A receipt is the floor fee of its own hold, which is settled. */
  ghost predicate Charged(st: State, r: Receipt) {
    && r.id < |st.holds| && st.holds[r.id].settled
    && 0 <= r.bps
    && r.fee == st.holds[r.id].amount * r.bps / 10_000 <= st.holds[r.id].amount
  }

  lemma PerformAccounted(h: History, op: Op)
    requires Accounted(h) && InRange(op) && Perform(h, op).Done?
    ensures Accounted(Perform(h, op).value)
  {
    match op
    case OpOpen(account, opening) => SumUpdate(h.st.accounts, account, opening);
    case OpHold(from, to, amount) => HoldSound(h.st, from, to, amount);
    case OpSettle(id) =>
    case OpSettleWithFee(id, bps) => FeeAccounted(h, id, bps);
  }

  lemma FeeAccounted(h: History, id: nat, bps: int)
    requires Accounted(h) && 0 <= bps <= U64_MAX
    requires Perform(h, OpSettleWithFee(id, bps)).Done?
    ensures Accounted(Perform(h, OpSettleWithFee(id, bps)).value)
  {
    SettleWithFeeExact(h.st, id, bps);
    var h' := Perform(h, OpSettleWithFee(id, bps)).value;
    forall i | 0 <= i < |h'.receipts|
      ensures Charged(h'.st, h'.receipts[i])
      ensures i < |h.receipts| ==> h'.receipts[i].id != id
    {
      if i < |h.receipts| {
        assert Charged(h.st, h.receipts[i]);
      }
    }
  }

  /** Any run conserves the money paid in, keeps every balance non-negative, and charges
      each hold at most once, the exact floor fee. */
  lemma {:induction false} RunAccounted(ops: seq<Op>)
    requires forall i :: 0 <= i < |ops| ==> InRange(ops[i])
    requires Run(ops).Some?
    ensures Accounted(Run(ops).value)
  {
    if ops != [] {
      RunAccounted(ops[..|ops| - 1]);
      var h := Run(ops[..|ops| - 1]).value;
      if Perform(h, ops[|ops| - 1]).Done? {
        PerformAccounted(h, ops[|ops| - 1]);
      }
    }
  }

  ghost function Offered(ops: seq<Op>): int {
    if ops == [] then 0 else
      Offered(ops[..|ops| - 1])
      + if ops[|ops| - 1].OpOpen? && ops[|ops| - 1].opening > 0 then ops[|ops| - 1].opening else 0
  }

  /** When the money offered fits an i64 and ids do not run out, nothing overflows. */
  lemma {:induction false} RunNeverOverflows(ops: seq<Op>)
    requires forall i :: 0 <= i < |ops| ==> InRange(ops[i])
    requires Offered(ops) <= I64_MAX && |ops| <= U64_MAX
    ensures Run(ops).Some?
    ensures 0 <= Run(ops).value.paidIn <= Offered(ops)
    ensures |Run(ops).value.st.holds| <= |ops|
  {
    if ops != [] {
      var before := ops[..|ops| - 1];
      RunNeverOverflows(before);
      RunAccounted(before);
      var h := Run(before).value;
      match ops[|ops| - 1]
      case OpOpen(account, opening) =>
      case OpHold(from, to, amount) =>
        if from in h.st.accounts && to in h.st.accounts && 0 < amount <= h.st.accounts[from] {
          MoveFits(h.st.accounts, from, to, amount);
        }
      case OpSettle(id) =>
      case OpSettleWithFee(id, bps) => SettleWithFeeExact(h.st, id, bps);
    }
  }

  // ---------------------------------------------------------------- the classes

  class Ledger {
    var accounts: map<string, int>

    constructor ()
      ensures accounts == map[]
    {
      accounts := map[];
    }

    method Open(account: string, amount: int) returns (r: Answer<()>)
      modifies this
      ensures match AfterOpen(State(old(accounts), [], 0), account, amount)
              case Done(st) => r == Done(()) && accounts == st.accounts
              case Refused(why) => r == Refused(why) && accounts == old(accounts)
              case Overflow => false
    {
      if amount < 0 { return Refused(NegativeOpening); }
      if account in accounts { return Refused(AccountExists(account)); }
      accounts := accounts[account := amount];
      return Done(());
    }

    method Credit(account: string, amount: int) returns (ok: bool)
      modifies this
      ensures ok <==> Add(old(accounts), account, amount).Some?
      ensures ok ==> accounts == Add(old(accounts), account, amount).value
    {
      var v := Balance(accounts, account) + amount;
      if !IsI64(v) { return false; }
      accounts := accounts[account := v];
      return true;
    }

    method Debit(account: string, amount: int) returns (ok: bool)
      modifies this
      ensures ok <==> Add(old(accounts), account, -amount).Some?
      ensures ok ==> accounts == Add(old(accounts), account, -amount).value
    {
      var v := Balance(accounts, account) - amount;
      if !IsI64(v) { return false; }
      accounts := accounts[account := v];
      return true;
    }
  }

  class Desk {
    var holds: seq<Hold>
    var nextId: nat

    constructor ()
      ensures holds == [] && nextId == 0
    {
      holds, nextId := [], 0;
    }

    function View(ledger: Ledger): State
      reads this, ledger
    {
      State(ledger.accounts, holds, nextId)
    }

    method Place(ledger: Ledger, from: string, to: string, amount: int) returns (r: Answer<nat>)
      modifies this, ledger
      ensures match AfterHold(old(View(ledger)), from, to, amount)
              case Done(st) => r == Done(old(nextId)) && View(ledger) == st
              case Refused(why) => r == Refused(why) && View(ledger) == old(View(ledger))
              case Overflow => r == Overflow
    {
      if from !in ledger.accounts || to !in ledger.accounts { return Refused(UnknownAccount); }
      if amount <= 0 { return Refused(AmountNotPositive); }
      if Balance(ledger.accounts, from) < amount { return Refused(InsufficientBalance(from)); }
      var debited := ledger.Debit(from, amount);
      if !debited { return Overflow; }
      var credited := ledger.Credit(to, amount);
      if !credited { return Overflow; }
      var id := nextId;
      if nextId == U64_MAX { return Overflow; }
      nextId := nextId + 1;
      holds := holds + [Hold(id, from, to, amount, false)];
      return Done(id);
    }

    /** The loop behind `find`: the first hold with the id. */
    method Find(id: nat) returns (i: nat)
      ensures i == match FindHold(holds, id) case Some(k) => k case None => |holds|
    {
      i := 0;
      while i < |holds| && holds[i].id != id
        invariant i <= |holds|
        invariant FindHold(holds, id) ==
                  match FindHold(holds[i..], id) case Some(k) => Some(i + k) case None => None
      {
        i := i + 1;
      }
    }

    method Settle(ledger: Ledger, id: nat) returns (r: Answer<()>)
      modifies this
      ensures match AfterSettle(old(View(ledger)), id)
              case Done(st) => r == Done(()) && View(ledger) == st
              case Refused(why) => r == Refused(why) && View(ledger) == old(View(ledger))
              case Overflow => false
    {
      var i := Find(id);
      if i == |holds| { return Refused(UnknownHold(id)); }
      if holds[i].settled { return Refused(AlreadySettled(id)); }
      holds := holds[i := holds[i].(settled := true)];
      return Done(());
    }

    method SettleWithFee(ledger: Ledger, id: nat, bps: int) returns (r: Answer<int>)
      modifies this, ledger
      ensures match AfterSettleWithFee(old(View(ledger)), id, bps)
              case Done(sf) => r == Done(sf.1) && View(ledger) == sf.0
              case Refused(why) => r == Refused(why) && View(ledger) == old(View(ledger))
              case Overflow => r == Overflow
    {
      var i := Find(id);
      if i == |holds| { return Refused(UnknownHold(id)); }
      var hold := holds[i];
      if hold.settled { return Refused(AlreadySettled(id)); }
      if FEES_ACCOUNT !in ledger.accounts { return Refused(UnknownAccount); }
      var product := CheckedMul128(hold.amount, bps);
      if product.None? { return Refused(FeeOverflow); }
      var fee := TruncDiv(product.value, 10_000);
      if fee > I64_MAX { return Refused(FeeOverflow); }
      if fee > hold.amount { return Refused(FeeExceedsAmount); }
      if Balance(ledger.accounts, hold.to) < fee { return Refused(InsufficientBalance(hold.to)); }
      if Balance(ledger.accounts, FEES_ACCOUNT) > I64_MAX - fee { return Refused(FeesAccountFull); }
      var debited := ledger.Debit(hold.to, fee);
      if !debited { return Overflow; }
      var credited := ledger.Credit(FEES_ACCOUNT, fee);
      if !credited { return Overflow; }
      holds := holds[i := hold.(settled := true)];
      return Done(fee);
    }
  }
}
