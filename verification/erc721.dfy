/** The ERC-721 part of the booking contract: token owners, balances, single
    approvals and operator approvals, following the Specification section of
    EIP-721, with interface detection as EIP-165 describes it.

    Storage is an immutable record; a method that the contract runs as
    `&mut self` is a function from the old record to a `Result` holding the
    new one. An `Err` makes the whole transaction revert, so on an error no
    new record exists. The message sender is a parameter. */
module Erc721 {
  import opened Wrappers
  import opened Words
  import opened Decimal

  datatype State = State(
    owners: map<U256, Address>,
    balances: map<Address, U256>,
    tokenApprovals: map<U256, Address>,
    operatorApprovals: map<(Address, Address), bool>,
    totalSupply: U256)

  const EMPTY: State := State(map[], map[], map[], map[], 0)

  datatype Error =
    | InvalidTokenId(tokenId: U256)
    | NotOwner(from: Address, tokenId: U256, realOwner: Address)
    | NotApproved(owner: Address, spender: Address, tokenId: U256)
    | TransferToZero(tokenId: U256)
    | ReceiverRefused(receiver: Address, tokenId: U256, returned: seq<byte>)

  // Storage reads (a mapping reads zero where nothing was written)

  function StoredOwner(s: State, id: U256): Address { Get(s.owners, id, ZERO_ADDRESS) }
  function BalanceOf(s: State, a: Address): U256 { Get(s.balances, a, 0) }
  function GetApproved(s: State, id: U256): Address { Get(s.tokenApprovals, id, ZERO_ADDRESS) }
  function IsApprovedForAll(s: State, owner: Address, operator: Address): bool {
    Get(s.operatorApprovals, (owner, operator), false)
  }

  /** `owner_of`: a token exists exactly when its stored owner is not the
      zero address. */
  function OwnerOf(s: State, id: U256): (r: Result<Address, Error>)
    ensures r.Err? <==> StoredOwner(s, id) == ZERO_ADDRESS
    ensures r.Err? ==> r.error == InvalidTokenId(id)
    ensures r.Ok? ==> r.value == StoredOwner(s, id) && r.value != ZERO_ADDRESS
  {
    var owner := StoredOwner(s, id);
    if owner == ZERO_ADDRESS then Err(InvalidTokenId(id)) else Ok(owner)
  }

  /** Who may move a token on its owner's behalf. */
  predicate MaySpend(s: State, sender: Address, owner: Address, id: U256) {
    sender == owner || IsApprovedForAll(s, owner, sender) || sender == GetApproved(s, id)
  }

  /** `require_authorized_to_spend`: the token exists, `from` owns it, and
      the sender is the owner, one of its operators or the token's approved
      address. */
  function RequireAuthorizedToSpend(s: State, sender: Address, from: Address, id: U256): (r: Result<(), Error>)
    ensures r.Ok? <==> StoredOwner(s, id) != ZERO_ADDRESS && from == StoredOwner(s, id) && MaySpend(s, sender, from, id)
    ensures StoredOwner(s, id) == ZERO_ADDRESS ==> r == Err(InvalidTokenId(id))
    ensures StoredOwner(s, id) != ZERO_ADDRESS && from != StoredOwner(s, id) ==>
      r == Err(NotOwner(from, id, StoredOwner(s, id)))
    ensures StoredOwner(s, id) != ZERO_ADDRESS && from == StoredOwner(s, id) && !MaySpend(s, sender, from, id) ==>
      r == Err(NotApproved(from, sender, id))
  {
    match OwnerOf(s, id)
    case Err(e) => Err(e)
    case Ok(owner) =>
      if from != owner then Err(NotOwner(from, id, owner))
      else if sender == owner then Ok(())
      else if IsApprovedForAll(s, owner, sender) then Ok(())
      else if sender == GetApproved(s, id) then Ok(())
      else Err(NotApproved(owner, sender, id))
  }

  /** The record after a successful `transfer`: new owner, balances moved one
      after the other (so a self-transfer leaves the balance as it was), and
      the token's single approval cleared. */
  function Moved(s: State, id: U256, from: Address, to: Address): State {
    var afterFrom := s.balances[from := WrappingSub(BalanceOf(s, from), 1)];
    var afterTo := afterFrom[to := WrappingAdd(Get(afterFrom, to, 0), 1)];
    s.(owners := s.owners[id := to],
       balances := afterTo,
       tokenApprovals := s.tokenApprovals[id := ZERO_ADDRESS])
  }

  /** `transfer`: fails with `NotOwner` exactly when `from` is not the stored
      owner (the zero address for a token that does not exist yet); it does
      not check `to`. */
  function Transfer(s: State, id: U256, from: Address, to: Address): (r: Result<State, Error>)
    ensures r.Err? <==> StoredOwner(s, id) != from
    ensures r.Err? ==> r.error == NotOwner(from, id, StoredOwner(s, id))
    ensures r.Ok? ==>
      var t := r.value;
      && StoredOwner(t, id) == to
      && GetApproved(t, id) == ZERO_ADDRESS
      && (forall other :: other != id ==> StoredOwner(t, other) == StoredOwner(s, other))
      && (forall other :: other != id ==> GetApproved(t, other) == GetApproved(s, other))
      && (from != to ==> BalanceOf(t, from) == WrappingSub(BalanceOf(s, from), 1))
      && (from != to ==> BalanceOf(t, to) == WrappingAdd(BalanceOf(s, to), 1))
      && (from == to ==> BalanceOf(t, from) == BalanceOf(s, from))
      && (forall a :: a != from && a != to ==> BalanceOf(t, a) == BalanceOf(s, a))
      && t.operatorApprovals == s.operatorApprovals
      && t.totalSupply == s.totalSupply
  {
    if StoredOwner(s, id) != from then Err(NotOwner(from, id, StoredOwner(s, id)))
    else Ok(Moved(s, id, from, to))
  }

  /** `mint`: the new id is the old supply, the supply grows by one (modulo
      2^256), and the token goes to `to` by a transfer from the zero address. */
  function Mint(s: State, to: Address): (r: Result<(State, U256), Error>)
    ensures r.Ok? <==> StoredOwner(s, s.totalSupply) == ZERO_ADDRESS
    ensures r.Ok? ==>
      var (t, id) := r.value;
      && id == s.totalSupply
      && t.totalSupply == WrappingAdd(s.totalSupply, 1)
      && StoredOwner(t, id) == to
      && (forall other :: other != id ==> StoredOwner(t, other) == StoredOwner(s, other))
  {
    var id := s.totalSupply;
    var bumped := s.(totalSupply := WrappingAdd(id, 1));
    match Transfer(bumped, id, ZERO_ADDRESS, to)
    case Err(e) => Err(e)
    case Ok(t) => Ok((t, id))
  }

  /** `burn`: a transfer to the zero address, without an authorisation check. */
  function Burn(s: State, from: Address, id: U256): (r: Result<State, Error>)
    ensures r.Ok? <==> StoredOwner(s, id) == from
    ensures r.Ok? ==> OwnerOf(r.value, id).Err? && TokenUri(r.value, id).Err?
    ensures r.Ok? ==> forall other :: other != id ==> StoredOwner(r.value, other) == StoredOwner(s, other)
  {
    Transfer(s, id, from, ZERO_ADDRESS)
  }

  /** `transfer_from`: a zero recipient is refused before any authorisation
      check; then the sender must be authorised, and the token moves. */
  function TransferFrom(s: State, sender: Address, from: Address, to: Address, id: U256): (r: Result<State, Error>)
    ensures to == ZERO_ADDRESS ==> r == Err(TransferToZero(id))
    ensures to != ZERO_ADDRESS ==> (r.Ok? <==> RequireAuthorizedToSpend(s, sender, from, id).Ok?)
    ensures to != ZERO_ADDRESS && RequireAuthorizedToSpend(s, sender, from, id).Err? ==>
      r == Err(RequireAuthorizedToSpend(s, sender, from, id).error)
    ensures r.Ok? ==> StoredOwner(r.value, id) == to && GetApproved(r.value, id) == ZERO_ADDRESS
    ensures r.Ok? ==> r == Transfer(s, id, from, to)
    ensures r.Ok? ==>
      var t := r.value;
      && (from != to ==> BalanceOf(t, from) == WrappingSub(BalanceOf(s, from), 1))
      && (from != to ==> BalanceOf(t, to) == WrappingAdd(BalanceOf(s, to), 1))
      && (forall a :: a != from && a != to ==> BalanceOf(t, a) == BalanceOf(s, a))
      && (forall other :: other != id ==> StoredOwner(t, other) == StoredOwner(s, other))
      && (forall other :: other != id ==> GetApproved(t, other) == GetApproved(s, other))
      && t.operatorApprovals == s.operatorApprovals && t.totalSupply == s.totalSupply
  {
    if to == ZERO_ADDRESS then Err(TransferToZero(id))
    else match RequireAuthorizedToSpend(s, sender, from, id)
      case Err(e) => Err(e)
      case Ok(_) => Transfer(s, id, from, to)
  }

  /** What the recipient's `onERC721Received` hook did, decided outside the
      contract: no code at the address, the call reverted, or it returned four
      bytes. */
  datatype ReceiverReply = NoCode | Reverted | Returned(selector: seq<byte>)

  const ERC721_TOKEN_RECEIVER_ID: nat := 0x150b7a02

  /** `call_receiver`: a contract recipient must answer with the receiver
      selector. */
  function CallReceiver(reply: ReceiverReply, id: U256, to: Address): (r: Result<(), Error>)
    requires reply.Returned? ==> |reply.selector| == 4
    ensures r.Ok? <==> reply.NoCode? || (reply.Returned? && BigEndian32(reply.selector) == ERC721_TOKEN_RECEIVER_ID)
  {
    match reply
    case NoCode => Ok(())
    case Reverted => Err(ReceiverRefused(to, id, Zeros(4)))
    case Returned(sel) =>
      if BigEndian32(sel) != ERC721_TOKEN_RECEIVER_ID then Err(ReceiverRefused(to, id, sel)) else Ok(())
  }

  /** `safe_transfer_from` (with or without data): `transfer_from`, then the
      receiver check; a refusal reverts the transfer. */
  function SafeTransferFrom(s: State, sender: Address, from: Address, to: Address, id: U256, reply: ReceiverReply): (r: Result<State, Error>)
    requires reply.Returned? ==> |reply.selector| == 4
    ensures r.Ok? <==> TransferFrom(s, sender, from, to, id).Ok? && CallReceiver(reply, id, to).Ok?
    ensures r.Ok? ==> r.value == TransferFrom(s, sender, from, to, id).value
  {
    match TransferFrom(s, sender, from, to, id)
    case Err(e) => Err(e)
    case Ok(t) =>
      match CallReceiver(reply, id, to)
      case Err(e) => Err(e)
      case Ok(_) => Ok(t)
  }

  /** `approve`: only the owner or one of its operators may set the token's
      approved address. */
  function Approve(s: State, sender: Address, approved: Address, id: U256): (r: Result<State, Error>)
    ensures r.Ok? <==>
      (StoredOwner(s, id) != ZERO_ADDRESS &&
       (sender == StoredOwner(s, id) || IsApprovedForAll(s, StoredOwner(s, id), sender)))
    ensures r.Ok? ==>
      && GetApproved(r.value, id) == approved
      && (forall other :: other != id ==> GetApproved(r.value, other) == GetApproved(s, other))
      && r.value.owners == s.owners && r.value.balances == s.balances
      && r.value.operatorApprovals == s.operatorApprovals && r.value.totalSupply == s.totalSupply
  {
    match OwnerOf(s, id)
    case Err(e) => Err(e)
    case Ok(owner) =>
      if sender != owner && !IsApprovedForAll(s, owner, sender) then Err(NotApproved(owner, sender, id))
      else Ok(s.(tokenApprovals := s.tokenApprovals[id := approved]))
  }

  /** `set_approval_for_all`: the sender sets its own operator flag. */
  function SetApprovalForAll(s: State, sender: Address, operator: Address, approved: bool): (t: State)
    ensures IsApprovedForAll(t, sender, operator) == approved
    ensures forall o, p :: (o, p) != (sender, operator) ==> IsApprovedForAll(t, o, p) == IsApprovedForAll(s, o, p)
    ensures t == s.(operatorApprovals := t.operatorApprovals)
  {
    s.(operatorApprovals := s.operatorApprovals[(sender, operator) := approved])
  }

  const IERC165_ID: nat := 0x01ffc9a7
  const IERC721_ID: nat := 0x80ac58cd
  const IERC721_METADATA_ID: nat := 0x5b5e139f

  /** `supports_interface`. */
  function SupportsInterface(interface: seq<byte>): (r: bool)
    requires |interface| == 4
    ensures r <==> BigEndian32(interface) in {IERC165_ID, IERC721_ID, IERC721_METADATA_ID}
    ensures BigEndian32(interface) == 0xffffffff ==> !r
  {
    var id := BigEndian32(interface);
    if id == 0xffffffff then false
    else id == IERC165_ID || id == IERC721_ID || id == IERC721_METADATA_ID
  }

  /** The two answers EIP-165 fixes for every implementer. */
  lemma SupportsInterfaceAsEip165Requires()
    ensures SupportsInterface([0x01, 0xff, 0xc9, 0xa7])
    ensures !SupportsInterface([0xff, 0xff, 0xff, 0xff])
    ensures SupportsInterface([0x80, 0xac, 0x58, 0xcd]) && SupportsInterface([0x5b, 0x5e, 0x13, 0x9f])
  {
  }

  const NAME: string := "TimeMint Slot"
  const SYMBOL: string := "TMSLOT"
  const URI_PREFIX: string := "https://timemint.xyz/api/slot/"
  const URI_SUFFIX: string := ".json"

  /** `token_uri`: fails exactly as `owner_of` does, else the slot URL with
      the id in decimal. */
  function TokenUri(s: State, id: U256): (r: Result<string, Error>)
    ensures r.Err? <==> StoredOwner(s, id) == ZERO_ADDRESS
    ensures r.Err? ==> r.error == InvalidTokenId(id)
    ensures r.Ok? ==>
      var u := r.value;
      && |u| > |URI_PREFIX| + |URI_SUFFIX|
      && u[..|URI_PREFIX|] == URI_PREFIX
      && u[|u| - |URI_SUFFIX|..] == URI_SUFFIX
      && var digits := u[|URI_PREFIX|..|u| - |URI_SUFFIX|];
         && (forall i :: 0 <= i < |digits| ==> IsDigit(digits[i]))
         && (|digits| == 1 || digits[0] != '0')
         && ParseDecimal(digits) == id
  {
    match OwnerOf(s, id)
    case Err(e) => Err(e)
    case Ok(_) =>
      var digits := ToDecimal(id);
      var u := URI_PREFIX + digits + URI_SUFFIX;
      ParseToDecimal(id);
      assert u[|URI_PREFIX|..|u| - |URI_SUFFIX|] == digits;
      Ok(u)
  }

  /** Tokens exist only below the supply counter. */
  predicate WellFormed(s: State) {
    forall id :: id in s.owners && s.owners[id] != ZERO_ADDRESS ==> id < s.totalSupply
  }

  /** While the counter does not wrap, minting never collides with an existing
      token and keeps the record well formed. */
  lemma MintPreservesWellFormed(s: State, to: Address)
    requires WellFormed(s) && s.totalSupply + 1 < U256_MODULUS
    ensures Mint(s, to).Ok?
    ensures WellFormed(Mint(s, to).value.0)
    ensures Mint(s, to).value.0.totalSupply == s.totalSupply + 1
  {
  }

  /** Transfers, burns and approvals keep the record well formed. */
  lemma TransferPreservesWellFormed(s: State, sender: Address, from: Address, to: Address, id: U256, approved: bool)
    requires WellFormed(s)
    ensures TransferFrom(s, sender, from, to, id).Ok? ==> WellFormed(TransferFrom(s, sender, from, to, id).value)
    ensures Burn(s, from, id).Ok? ==> WellFormed(Burn(s, from, id).value)
    ensures Approve(s, sender, to, id).Ok? ==> WellFormed(Approve(s, sender, to, id).value)
    ensures WellFormed(SetApprovalForAll(s, sender, to, approved))
  {
  }
}
