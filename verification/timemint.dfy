/** The booking contract `TimeMint`: an admin key set once, a set-once
    registry from site ids to creators, a global booking fee split 95/5
    between the site's creator and the admin, withdrawable balances, and the
    slot list and metadata readers.

    As with the token, storage is an immutable record and a failed call
    reverts, so an `Err` carries no record. The sender, the value sent with
    the call and the outcome of an ether payout are parameters. */
module TimeMint {
  import opened Wrappers
  import opened Words
  import Erc721

  datatype State = State(
    erc721: Erc721.State,
    creatorCount: map<Address, U256>,
    creatorSlots: map<(Address, U256), U256>,
    ownerCount: map<Address, U256>,
    ownerSlots: map<(Address, U256), U256>,
    creators: map<U256, Address>,
    slotStart: map<U256, U256>,
    slotEnd: map<U256, U256>,
    bookingFee: U256,
    userBalances: map<Address, U256>,
    siteCreators: map<Bytes32, Address>,
    adminKey: Bytes32)

  /** Storage of a freshly deployed contract: everything reads zero. */
  const DEPLOYED: State :=
    State(Erc721.EMPTY, map[], map[], map[], map[], map[], map[], map[], 0, map[], map[], Zeros(32))

  /** The reasons a call reverts; `Message` gives the string the contract
      returns for each. `ValueSentToNonPayable` is the entry point's own
      refusal, which reverts with no data. */
  datatype Failure =
    | AlreadyInitialized
    | CreatorAlreadySet
    | NotSiteCreator
    | NotAdmin
    | InvalidSlotTimeRange
    | NoCreatorRegistered
    | InsufficientBookingFee
    | NoBalance
    | TransferFailed
    | ValueSentToNonPayable

  function Message(f: Failure): string {
    match f
    case AlreadyInitialized => "Already initialized"
    case CreatorAlreadySet => "Creator already set for this site_id"
    case NotSiteCreator => "Only the creator can register their own site"
    case NotAdmin => "Only admin can set booking fee"
    case InvalidSlotTimeRange => "Invalid slot time range"
    case NoCreatorRegistered => "No creator registered for this site_id"
    case InsufficientBookingFee => "Insufficient booking fee"
    case NoBalance => "No balance to withdraw"
    case TransferFailed => "Transfer failed"
    case ValueSentToNonPayable => ""
  }

  function Balance(s: State, a: Address): U256 { Get(s.userBalances, a, 0) }
  function SiteCreator(s: State, key: Bytes32): Address { Get(s.siteCreators, key, ZERO_ADDRESS) }

  /** The admin is the first 20 bytes of the admin key (the zero address
      before `init`). */
  function AdminAddress(s: State): Address { s.adminKey[..20] }

  // ----- init -----

  /** `init`: allowed only while the admin key is all zeros; stores the
      admin address followed by twelve zero bytes. */
  function Init(s: State, admin: Address): (r: Result<State, Failure>)
    ensures r.Err? <==> s.adminKey != Zeros(32)
    ensures r.Err? ==> r.error == AlreadyInitialized
    ensures r.Ok? ==> AdminAddress(r.value) == admin && r.value.adminKey[20..] == Zeros(12)
    ensures r.Ok? ==> r.value.(adminKey := s.adminKey) == s
  {
    if s.adminKey != Zeros(32) then Err(AlreadyInitialized)
    else
      var padded := admin + Zeros(12);
      assert padded[..20] == admin;
      assert padded[20..] == Zeros(12);
      Ok(s.(adminKey := padded))
  }

  /** After one successful `init`, a second one succeeds exactly when the
      first named the zero address: that key is indistinguishable from an
      uninitialised one. */
  lemma InitOnce(s: State, admin: Address, next: Address)
    requires Init(s, admin).Ok?
    ensures Init(Init(s, admin).value, next).Ok? <==> admin == ZERO_ADDRESS
  {
    var key := Init(s, admin).value.adminKey;
    assert key[..20] == admin && key[20..] == Zeros(12);
    if admin == ZERO_ADDRESS {
      assert key == key[..20] + key[20..];
      assert key == Zeros(32);
    } else {
      assert key[..20] != Zeros(32)[..20];
      assert key != Zeros(32);
    }
  }

  // ----- site registry -----

  /** The storage key of a site id: its first min(len, 32) bytes, padded
      with zero bytes to 32. */
  function SiteKey(siteId: seq<byte>): (key: Bytes32)
    ensures forall i :: 0 <= i < |siteId| && i < 32 ==> key[i] == siteId[i]
    ensures forall i :: |siteId| <= i < 32 ==> key[i] == 0
  {
    var len := if |siteId| < 32 then |siteId| else 32;
    siteId[..len] + Zeros(32 - len)
  }

  /** Ids agreeing on their first 32 bytes share a key. */
  lemma SiteKeyTruncates(a: seq<byte>, b: seq<byte>)
    requires |a| >= 32 && |b| >= 32 && a[..32] == b[..32]
    ensures SiteKey(a) == SiteKey(b)
  {
    forall i | 0 <= i < 32
      ensures SiteKey(a)[i] == SiteKey(b)[i]
    {
      assert a[i] == a[..32][i];
      assert b[i] == b[..32][i];
    }
  }

  /** A short id and the same id with a zero byte appended share a key. */
  lemma SiteKeyIgnoresTrailingZero(a: seq<byte>)
    requires |a| < 32
    ensures SiteKey(a + [0]) == SiteKey(a)
  {
    forall i | 0 <= i < 32
      ensures SiteKey(a + [0])[i] == SiteKey(a)[i]
    {
      if i < |a| {
        assert (a + [0])[i] == a[i];
      }
    }
  }

  /** On ids of at most 32 bytes that contain no zero byte, the key is
      injective. */
  lemma SiteKeyInjective(a: seq<byte>, b: seq<byte>)
    requires |a| <= 32 && |b| <= 32
    requires forall i :: 0 <= i < |a| ==> a[i] != 0
    requires forall i :: 0 <= i < |b| ==> b[i] != 0
    ensures SiteKey(a) == SiteKey(b) <==> a == b
  {
    if |a| < |b| {
      assert SiteKey(a)[|a|] == 0 != b[|a|] == SiteKey(b)[|a|];
    } else if |b| < |a| {
      assert SiteKey(b)[|b|] == 0 != a[|b|] == SiteKey(a)[|b|];
    } else if SiteKey(a) == SiteKey(b) {
      forall i | 0 <= i < |a|
        ensures a[i] == b[i]
      {
        assert SiteKey(a)[i] == a[i] && SiteKey(b)[i] == b[i];
      }
    }
  }

  /** `register_site`: refused when the key already has a creator, then when
      the sender is not the creator being registered. */
  function RegisterSite(s: State, sender: Address, siteId: seq<byte>, creator: Address): (r: Result<State, Failure>)
    ensures SiteCreator(s, SiteKey(siteId)) != ZERO_ADDRESS ==> r == Err(CreatorAlreadySet)
    ensures SiteCreator(s, SiteKey(siteId)) == ZERO_ADDRESS && sender != creator ==> r == Err(NotSiteCreator)
    ensures r.Ok? <==> SiteCreator(s, SiteKey(siteId)) == ZERO_ADDRESS && sender == creator
    ensures r.Ok? ==>
      && SiteCreator(r.value, SiteKey(siteId)) == creator
      && (forall k :: k != SiteKey(siteId) ==> SiteCreator(r.value, k) == SiteCreator(s, k))
      && r.value.(siteCreators := s.siteCreators) == s
  {
    var key := SiteKey(siteId);
    if SiteCreator(s, key) != ZERO_ADDRESS then Err(CreatorAlreadySet)
    else if sender != creator then Err(NotSiteCreator)
    else Ok(s.(siteCreators := s.siteCreators[key := creator]))
  }

  // ----- fee -----

  /** `set_booking_fee`: only the stored admin address may change the fee. */
  function SetBookingFee(s: State, sender: Address, fee: U256): (r: Result<State, Failure>)
    ensures r.Ok? <==> sender == AdminAddress(s)
    ensures r.Err? ==> r.error == NotAdmin
    ensures r.Ok? ==> r.value.bookingFee == fee && r.value.(bookingFee := s.bookingFee) == s
  {
    if sender != AdminAddress(s) then Err(NotAdmin)
    else Ok(s.(bookingFee := fee))
  }

  /** Once `init` has named an admin, exactly that address may set the fee. */
  lemma InitThenSetBookingFee(s: State, admin: Address, sender: Address, fee: U256)
    requires Init(s, admin).Ok?
    ensures SetBookingFee(Init(s, admin).value, sender, fee).Ok? <==> sender == admin
  {
  }

  /** The creator's part of a fee: `fee * 95 / 100` with a wrapping product. */
  function CreatorShare(fee: U256): U256 {
    WrappingMul(fee, 95) / 100
  }

  /** The admin's part: what the creator's part leaves of the fee. */
  function AdminShare(fee: U256): U256 {
    WrappingSub(fee, CreatorShare(fee))
  }

  /** The two shares always add up to the fee, with no wrap-around, even when
      the product `fee * 95` wraps; without that wrap the creator's share is
      the exact floor of 95 %. */
  lemma {:induction false} FeeSplit(fee: U256)
    ensures CreatorShare(fee) <= fee
    ensures CreatorShare(fee) + AdminShare(fee) == fee
    ensures fee * 95 < U256_MODULUS ==> CreatorShare(fee) == fee * 95 / 100
    ensures fee * 95 < U256_MODULUS ==> AdminShare(fee) >= fee * 5 / 100
  {
    var p := WrappingMul(fee, 95);
    if fee * 95 < U256_MODULUS {
      assert p == fee * 95;
      assert p / 100 <= fee;
    } else {
      assert p < U256_MODULUS;
      assert p / 100 <= U256_MODULUS / 100;
      assert U256_MODULUS / 100 < fee;
    }
  }

  // ----- booking -----

  /** The balances after a booking: the creator's share credited first, then
      the admin's share (so a creator who is also the admin gets both). */
  function Credited(s: State, creator: Address): map<Address, U256> {
    var fee := s.bookingFee;
    var admin := AdminAddress(s);
    var afterCreator := s.userBalances[creator := WrappingAdd(Balance(s, creator), CreatorShare(fee))];
    afterCreator[admin := WrappingAdd(Get(afterCreator, admin, 0), AdminShare(fee))]
  }

  /** Why a booking is refused, in the order the contract checks. */
  function BookingRefusal(s: State, value: U256, siteId: seq<byte>, start: U256, end: U256): Option<Failure> {
    if start == 0 || end == 0 || end <= start then Some(InvalidSlotTimeRange)
    else if SiteCreator(s, SiteKey(siteId)) == ZERO_ADDRESS then Some(NoCreatorRegistered)
    else if value < s.bookingFee then Some(InsufficientBookingFee)
    else None
  }

  /** `book_slot`: after the checks, it credits the two shares and bumps the
      token supply, returning the old supply as the slot's id. It neither
      assigns the token an owner nor records the slot's creator, times or
      owner list. */
  function BookSlot(s: State, value: U256, siteId: seq<byte>, start: U256, end: U256): (r: Result<(State, U256), Failure>)
    ensures r.Err? <==> BookingRefusal(s, value, siteId, start, end).Some?
    ensures r.Err? ==> r.error == BookingRefusal(s, value, siteId, start, end).value
    ensures r.Ok? ==>
      var (t, id) := r.value;
      var creator := SiteCreator(s, SiteKey(siteId));
      && id == s.erc721.totalSupply
      && t.erc721 == s.erc721.(totalSupply := WrappingAdd(s.erc721.totalSupply, 1))
      && t.(userBalances := s.userBalances, erc721 := s.erc721) == s
      && t.userBalances == Credited(s, creator)
  {
    var key := SiteKey(siteId);
    if start == 0 || end == 0 || end <= start then Err(InvalidSlotTimeRange)
    else
      var creator := SiteCreator(s, key);
      if creator == ZERO_ADDRESS then Err(NoCreatorRegistered)
      else if value < s.bookingFee then Err(InsufficientBookingFee)
      else
        var id := s.erc721.totalSupply;
        var t := s.(userBalances := Credited(s, creator),
                    erc721 := s.erc721.(totalSupply := WrappingAdd(id, 1)));
        Ok((t, id))
  }

  /** `book_slot` as the contract's entry point dispatches it. The method is
      not marked `#[payable]`, so a call that sends ether reverts before the
      method body runs; only a call that sends nothing reaches its checks. */
  function BookSlotEntry(s: State, value: U256, siteId: seq<byte>, start: U256, end: U256): (r: Result<(State, U256), Failure>)
    ensures value != 0 ==> r == Err(ValueSentToNonPayable)
    ensures r.Ok? <==> value == 0 && BookingRefusal(s, 0, siteId, start, end).None?
    ensures r.Ok? ==> r == BookSlot(s, value, siteId, start, end)
  {
    if value != 0 then Err(ValueSentToNonPayable) else BookSlot(s, value, siteId, start, end)
  }

  /** As deployed, a booking goes through only while the fee is zero, and
      then every balance reads as before: no booking ever credits a share. */
  lemma DeployedBookingCreditsNothing(s: State, value: U256, siteId: seq<byte>, start: U256, end: U256, a: Address)
    ensures s.bookingFee != 0 ==> BookSlotEntry(s, value, siteId, start, end).Err?
    ensures BookSlotEntry(s, value, siteId, start, end).Ok? ==>
      Balance(BookSlotEntry(s, value, siteId, start, end).value.0, a) == Balance(s, a)
  {
  }

  /** What the credit does to each balance: the creator gains its share and
      the admin its share (both when they are one address), and no other
      balance moves. */
  lemma CreditedBalances(s: State, creator: Address)
    ensures var admin := AdminAddress(s); var b := Credited(s, creator);
      && (creator != admin ==> Get(b, creator, 0) == WrappingAdd(Balance(s, creator), CreatorShare(s.bookingFee)))
      && (creator != admin ==> Get(b, admin, 0) == WrappingAdd(Balance(s, admin), AdminShare(s.bookingFee)))
      && (creator == admin ==> Get(b, admin, 0) == WrappingAdd(Balance(s, admin), s.bookingFee))
      && (forall a :: a != creator && a != admin ==> Get(b, a, 0) == Balance(s, a))
  {
    var fee := s.bookingFee;
    var cs := CreatorShare(fee);
    var ads := AdminShare(fee);
    var admin := AdminAddress(s);
    var m1 := s.userBalances[creator := WrappingAdd(Balance(s, creator), cs)];
    assert Credited(s, creator) == m1[admin := WrappingAdd(Get(m1, admin, 0), ads)];
    if creator == admin {
      FeeSplit(fee);
      assert Get(m1, admin, 0) == WrappingAdd(Balance(s, admin), cs);
      WrappingAddTwice(Balance(s, admin), cs, ads);
    }
  }

  /** A booking creates no token: ownership, slot metadata and the slot
      lists read exactly as before. */
  lemma BookSlotRecordsNoSlot(s: State, value: U256, siteId: seq<byte>, start: U256, end: U256, id: U256, who: Address)
    requires BookSlot(s, value, siteId, start, end).Ok?
    ensures var t := BookSlot(s, value, siteId, start, end).value.0;
      && Erc721.OwnerOf(t.erc721, id) == Erc721.OwnerOf(s.erc721, id)
      && SlotMetadata(t, id) == SlotMetadata(s, id)
      && OwnerEntries(t, who) == OwnerEntries(s, who)
      && CreatorEntries(t, who) == CreatorEntries(s, who)
  {
  }

  // ----- withdraw -----

  /** `withdraw`: refused on a zero balance; otherwise the balance is zeroed
      before the payout, and a failed payout reverts the whole call. Returns
      the amount paid. */
  function Withdraw(s: State, sender: Address, payoutSucceeds: bool): (r: Result<(State, U256), Failure>)
    ensures Balance(s, sender) == 0 ==> r == Err(NoBalance)
    ensures Balance(s, sender) != 0 && !payoutSucceeds ==> r == Err(TransferFailed)
    ensures r.Ok? <==> Balance(s, sender) != 0 && payoutSucceeds
    ensures r.Ok? ==>
      var (t, paid) := r.value;
      && paid == Balance(s, sender) && paid > 0
      && Balance(t, sender) == 0
      && (forall a :: a != sender ==> Balance(t, a) == Balance(s, a))
      && t.(userBalances := s.userBalances) == s
  {
    var amount := Balance(s, sender);
    if amount == 0 then Err(NoBalance)
    else
      var t := s.(userBalances := s.userBalances[sender := 0]);
      if !payoutSucceeds then Err(TransferFailed) else Ok((t, amount))
  }

  /** A balance is paid out once: withdrawing again right away is refused. */
  lemma WithdrawOnce(s: State, sender: Address, ok1: bool, ok2: bool)
    requires Withdraw(s, sender, ok1).Ok?
    ensures Withdraw(Withdraw(s, sender, ok1).value.0, sender, ok2) == Err(NoBalance)
  {
  }

  /** A creator who is not the admin and holds nothing, after one booking of
      its site, withdraws exactly its 95 % share. */
  lemma BookThenWithdraw(s: State, value: U256, siteId: seq<byte>, start: U256, end: U256)
    requires BookSlot(s, value, siteId, start, end).Ok?
    requires SiteCreator(s, SiteKey(siteId)) != AdminAddress(s)
    requires Balance(s, SiteCreator(s, SiteKey(siteId))) == 0
    requires 100 <= s.bookingFee * 95 < U256_MODULUS
    ensures var t := BookSlot(s, value, siteId, start, end).value.0;
      var w := Withdraw(t, SiteCreator(s, SiteKey(siteId)), true);
      w.Ok? && w.value.1 == CreatorShare(s.bookingFee)
  {
    var creator := SiteCreator(s, SiteKey(siteId));
    CreditedBalances(s, creator);
    FeeSplit(s.bookingFee);
    assert CreatorShare(s.bookingFee) > 0;
  }

  // ----- readers -----

  /** The first `n` entries of `who`'s row of a slot table, zero entries
      dropped, in index order. */
  function NonZeroEntries(table: map<(Address, U256), U256>, who: Address, n: nat): seq<U256>
    requires n <= U64_MODULUS
  {
    if n == 0 then []
    else
      var v := Get(table, (who, n - 1), 0);
      NonZeroEntries(table, who, n - 1) + (if v == 0 then [] else [v])
  }

  /** The listed entries are exactly the nonzero values among the first `n`
      indices. */
  lemma {:induction false} NonZeroEntriesContents(table: map<(Address, U256), U256>, who: Address, n: nat)
    requires n <= U64_MODULUS
    ensures |NonZeroEntries(table, who, n)| <= n
    ensures forall x :: x in NonZeroEntries(table, who, n) <==>
      x != 0 && exists i :: 0 <= i < n && Get(table, (who, i), 0) == x
  {
    if n > 0 {
      NonZeroEntriesContents(table, who, n - 1);
      forall x | x != 0 && exists i :: 0 <= i < n && Get(table, (who, i), 0) == x
        ensures x in NonZeroEntries(table, who, n)
      {
        var i :| 0 <= i < n && Get(table, (who, i), 0) == x;
        if i < n - 1 {
          assert x in NonZeroEntries(table, who, n - 1);
        }
      }
    }
  }

  function CreatorEntries(s: State, creator: Address): seq<U256> {
    NonZeroEntries(s.creatorSlots, creator, LowLimb(Get(s.creatorCount, creator, 0)))
  }

  function OwnerEntries(s: State, owner: Address): seq<U256> {
    NonZeroEntries(s.ownerSlots, owner, LowLimb(Get(s.ownerCount, owner, 0)))
  }

  /** The loop shared by `slots_of_creator` and `slots_of_owner`: walk the
      indices below the low 64 bits of the count and keep nonzero ids. */
  method CollectSlots(table: map<(Address, U256), U256>, who: Address, count: U256) returns (slots: seq<U256>)
    ensures slots == NonZeroEntries(table, who, LowLimb(count))
    ensures forall x :: x in slots <==>
      x != 0 && exists i :: 0 <= i < LowLimb(count) && Get(table, (who, i), 0) == x
  {
    var n := LowLimb(count);
    slots := [];
    var i := 0;
    while i < n
      invariant 0 <= i <= n
      invariant slots == NonZeroEntries(table, who, i)
    {
      var id := Get(table, (who, i), 0);
      if id != 0 {
        slots := slots + [id];
      }
      i := i + 1;
    }
    NonZeroEntriesContents(table, who, n);
  }

  /** `slots_of_creator`. */
  method SlotsOfCreator(s: State, creator: Address) returns (slots: seq<U256>)
    ensures slots == CreatorEntries(s, creator)
    ensures forall x :: x in slots ==> x != 0
  {
    slots := CollectSlots(s.creatorSlots, creator, Get(s.creatorCount, creator, 0));
  }

  /** `slots_of_owner`. */
  method SlotsOfOwner(s: State, owner: Address) returns (slots: seq<U256>)
    ensures slots == OwnerEntries(s, owner)
    ensures forall x :: x in slots ==> x != 0
  {
    slots := CollectSlots(s.ownerSlots, owner, Get(s.ownerCount, owner, 0));
  }

  /** `debug_owner_info`: the owner's row without dropping zero entries. */
  method DebugOwnerInfo(s: State, owner: Address) returns (slots: seq<U256>)
    ensures |slots| == LowLimb(Get(s.ownerCount, owner, 0))
    ensures forall i :: 0 <= i < |slots| ==> slots[i] == Get(s.ownerSlots, (owner, i), 0)
  {
    var n := LowLimb(Get(s.ownerCount, owner, 0));
    slots := [];
    var i := 0;
    while i < n
      invariant 0 <= i <= n
      invariant |slots| == i
      invariant forall j :: 0 <= j < i ==> slots[j] == Get(s.ownerSlots, (owner, j), 0)
    {
      slots := slots + [Get(s.ownerSlots, (owner, i), 0)];
      i := i + 1;
    }
  }

  /** Dropping the zero entries of the debug listing gives `slots_of_owner`. */
  lemma {:induction false} DebugListingFiltersToOwnerEntries(s: State, owner: Address, n: nat)
    requires n <= LowLimb(Get(s.ownerCount, owner, 0))
    ensures NonZeroEntries(s.ownerSlots, owner, n) ==
      Filter(seq(n, i requires 0 <= i < n => Get(s.ownerSlots, (owner, i), 0)))
  {
    var all := seq(n, i requires 0 <= i < n => Get(s.ownerSlots, (owner, i), 0));
    if n > 0 {
      DebugListingFiltersToOwnerEntries(s, owner, n - 1);
      var prefix := seq(n - 1, i requires 0 <= i < n - 1 => Get(s.ownerSlots, (owner, i), 0));
      assert all == prefix + [all[n - 1]];
      FilterAppend(prefix, [all[n - 1]]);
    }
  }

  /** The nonzero elements of a list, in order. */
  function Filter(xs: seq<U256>): (r: seq<U256>)
    ensures forall x :: x in r <==> x in xs && x != 0
  {
    if xs == [] then [] else (if xs[0] == 0 then [] else [xs[0]]) + Filter(xs[1..])
  }

  lemma {:induction false} FilterAppend(xs: seq<U256>, ys: seq<U256>)
    ensures Filter(xs + ys) == Filter(xs) + Filter(ys)
  {
    if xs == [] {
      assert xs + ys == ys;
    } else {
      assert (xs + ys)[0] == xs[0];
      assert (xs + ys)[1..] == xs[1..] + ys;
      FilterAppend(xs[1..], ys);
    }
  }

  /** `slot_metadata`: the stored triple when creator, start and end are all
      set, else the all-zero triple. */
  function SlotMetadata(s: State, id: U256): (r: (Address, U256, U256))
    ensures var creator := Get(s.creators, id, ZERO_ADDRESS);
      var start := Get(s.slotStart, id, 0);
      var end := Get(s.slotEnd, id, 0);
      && (r == (ZERO_ADDRESS, 0, 0) || r == (creator, start, end))
      && (r.0 != ZERO_ADDRESS <==> creator != ZERO_ADDRESS && start != 0 && end != 0)
      && (r.0 == ZERO_ADDRESS <==> r.1 == 0)
      && (r.1 == 0 <==> r.2 == 0)
  {
    var creator := Get(s.creators, id, ZERO_ADDRESS);
    var start := Get(s.slotStart, id, 0);
    var end := Get(s.slotEnd, id, 0);
    if creator == ZERO_ADDRESS || start == 0 || end == 0 then (ZERO_ADDRESS, 0, 0)
    else (creator, start, end)
  }

  /** `on_erc721_received`: the contract accepts every token sent to it. */
  function OnErc721Received(): (selector: seq<byte>)
    ensures |selector| == 4
    ensures Erc721.CallReceiver(Erc721.Returned(selector), 0, ZERO_ADDRESS).Ok?
  {
    [0x15, 0x0b, 0x7a, 0x02]
  }

  // ----- call sequences -----

  /** One external call to the contract, with its sender and, for
      `book_slot`, the value sent. Every method is non-payable, so a call to
      another method that sends ether reverts and is the same as no call. */
  datatype Call =
    | InitCall(admin: Address)
    | RegisterSiteCall(sender: Address, siteId: seq<byte>, creator: Address)
    | SetBookingFeeCall(sender: Address, fee: U256)
    | BookSlotCall(value: U256, siteId: seq<byte>, start: U256, end: U256)
    | WithdrawCall(sender: Address, payoutSucceeds: bool)

  /** The record after a call: the new record, or the old one when it
      reverted. Only `init` touches the admin key, only `register_site` the
      registry, only `set_booking_fee` the fee, only `book_slot` the token
      storage, and only `book_slot` and `withdraw` the balances. */
  function Apply(s: State, c: Call): (t: State)
    ensures t.adminKey != s.adminKey ==> c.InitCall?
    ensures t.siteCreators != s.siteCreators ==> c.RegisterSiteCall?
    ensures t.bookingFee != s.bookingFee ==> c.SetBookingFeeCall?
    ensures t.erc721 != s.erc721 ==> c.BookSlotCall?
    ensures t.userBalances != s.userBalances ==> c.BookSlotCall? || c.WithdrawCall?
  {
    match c
    case InitCall(admin) => (match Init(s, admin) case Ok(t) => t case Err(_) => s)
    case RegisterSiteCall(sender, siteId, creator) =>
      (match RegisterSite(s, sender, siteId, creator) case Ok(t) => t case Err(_) => s)
    case SetBookingFeeCall(sender, fee) => (match SetBookingFee(s, sender, fee) case Ok(t) => t case Err(_) => s)
    case BookSlotCall(value, siteId, start, end) =>
      (match BookSlotEntry(s, value, siteId, start, end) case Ok(p) => p.0 case Err(_) => s)
    case WithdrawCall(sender, ok) => (match Withdraw(s, sender, ok) case Ok(p) => p.0 case Err(_) => s)
  }

  /** A sequence of calls, in order. A part of storage that no call in the
      sequence may touch ends as it began. */
  function RunCalls(s: State, calls: seq<Call>): (t: State)
    ensures (forall i :: 0 <= i < |calls| ==> !calls[i].InitCall?) ==> t.adminKey == s.adminKey
    ensures (forall i :: 0 <= i < |calls| ==> !calls[i].RegisterSiteCall?) ==> t.siteCreators == s.siteCreators
    ensures (forall i :: 0 <= i < |calls| ==> !calls[i].SetBookingFeeCall?) ==> t.bookingFee == s.bookingFee
    ensures (forall i :: 0 <= i < |calls| ==> !calls[i].BookSlotCall?) ==> t.erc721 == s.erc721
    decreases |calls|
  {
    if calls == [] then s
    else
      assert forall i :: 1 <= i < |calls| ==> calls[1..][i - 1] == calls[i];
      RunCalls(Apply(s, calls[0]), calls[1..])
  }

  /** A registered creator is never replaced by any call. */
  lemma ApplyKeepsRegistration(s: State, c: Call, key: Bytes32)
    requires SiteCreator(s, key) != ZERO_ADDRESS
    ensures SiteCreator(Apply(s, c), key) == SiteCreator(s, key)
  {
  }

  /** The site registry is set-once over any sequence of calls. */
  lemma {:induction false} RegistrationIsPermanent(s: State, calls: seq<Call>, key: Bytes32)
    requires SiteCreator(s, key) != ZERO_ADDRESS
    ensures SiteCreator(RunCalls(s, calls), key) == SiteCreator(s, key)
    decreases |calls|
  {
    if calls != [] {
      ApplyKeepsRegistration(s, calls[0], key);
      RegistrationIsPermanent(Apply(s, calls[0]), calls[1..], key);
    }
  }

  /** No token owners and no slot records at all. */
  predicate NoSlotRecords(s: State) {
    && s.erc721.owners == map[]
    && s.creatorCount == map[] && s.ownerCount == map[]
    && s.creators == map[] && s.slotStart == map[] && s.slotEnd == map[]
  }

  /** No public call writes a token owner or a slot record. */
  lemma ApplyRecordsNoSlot(s: State, c: Call)
    requires NoSlotRecords(s)
    ensures NoSlotRecords(Apply(s, c))
  {
    match c
    case InitCall(admin) =>
    case RegisterSiteCall(sender, siteId, creator) =>
    case SetBookingFeeCall(sender, fee) =>
    case BookSlotCall(value, siteId, start, end) =>
    case WithdrawCall(sender, ok) =>
  }

  /** The same over any sequence of calls. */
  lemma {:induction false} NoCallRecordsASlot(s: State, calls: seq<Call>)
    requires NoSlotRecords(s)
    ensures NoSlotRecords(RunCalls(s, calls))
    decreases |calls|
  {
    if calls != [] {
      ApplyRecordsNoSlot(s, calls[0]);
      NoCallRecordsASlot(Apply(s, calls[0]), calls[1..]);
    }
  }

  /** From deployment, whatever calls are made, every token id is invalid,
      every metadata triple is zero and every slot list is empty. */
  lemma DeployedContractHasNoSlots(calls: seq<Call>, id: U256, who: Address)
    ensures var s := RunCalls(DEPLOYED, calls);
      && Erc721.OwnerOf(s.erc721, id).Err?
      && SlotMetadata(s, id) == (ZERO_ADDRESS, 0, 0)
      && OwnerEntries(s, who) == [] && CreatorEntries(s, who) == []
  {
    NoCallRecordsASlot(DEPLOYED, calls);
  }
}
