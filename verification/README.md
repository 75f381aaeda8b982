# TimeMint availability and booking, in Dafny

TimeMint lets a site visitor book a 30-minute slot of a site creator's time
and pay for it on chain. This project models two of its parts and proves what
they promise.

1. **The availability-slot generators.** These turn working hours, allowed
   weekdays, a cap and the creator's calendar events into an ordered list of
   half-hour slots. There are two traversal shapes.
   - The *nested day / hour / half-hour walk* is repeated at three call sites:
     the demo site's effect, the component demo's effect and the
     creator-availability API handler. It is one generic walk
     (`NestedWalk.Run`) that each call site instantiates.
   - The booking widget has its own *continuous 30-minute scan*. It is kept
     separate because its acceptance rules differ.
   - The widget also has a back-to-back simulated generator and a filter that
     drops a booked slot.
2. **The on-chain contract.** This covers the ERC-721 token logic, which
   follows the Specification section of EIP-721, with interface detection as
   in EIP-165. It also covers the `TimeMint` booking contract:
   - an admin key that is set once;
   - a set-once registry from site ids to creators;
   - a booking fee split 95/5 between creator and admin;
   - withdrawable balances;
   - the slot list and metadata readers.

Time, configuration and host effects are modelled as follows:
- Instants are integer milliseconds in a fixed UTC offset of 0, with days of
  exactly 86 400 000 ms.
- The weekday is `(t / DAY + 4) % 7`, where 0 is Sunday.
- Slots are emitted in whole seconds.
- `now`, the configuration and the calendar events are parameters.
- In the contract, storage is an immutable record. Every `&mut self` method
  is a function from the old record to a `Result`. An `Err` is a revert, so it
  yields no new record.
- The sender, the value sent, the receiver hook's reply and whether the ether
  payout succeeds are parameters.
- 256-bit arithmetic wraps modulo 2^256.
- The public `impl TimeMint` block declares no inheritance, so a caller can
  reach only the `TimeMint` methods. `TimeMint.Call` and `TimeMint.RunCalls`
  model any sequence of such calls.

Modules:
- `Clock`: time arithmetic.
- `Slots`: wire records in seconds.
- `Calendar`: events, busy extraction and overlap tests.
- `DayModes`: the booking-days setting.
- `NestedWalk`: the walk itself.
- `NestedCandidates`: the flat reference for the walk.
- `NestedProperties`: what the walk promises.
- `CallSites`: the call sites of the walk.
- `Widget`: the widget's generators.
- `Words`: machine words.
- `Decimal`: decimal digits.
- `Erc721`: the token logic.
- `TimeMint`: the booking contract.

## Model

| member | source | states |
|---|---|---|
| DayModes.AllowedDays | examples/timemint-demo-site/src/App.jsx:84-85 | `weekdays` gives {1..5} and `weekends` gives {0,6}. Any other tag gives all seven days. Sunday is admitted iff the tag is not `weekdays`, and Wednesday iff it is not `weekends`. |
| DayModes.WidgetAgreesOnlyOnWeekdaysAndAll | packages/react-timemint-component/src/TimeMintBooking.tsx:127-128 | On `weekdays` and `all`, the widget's day rule admits exactly the days the demo mapping admits. On every other value the widget admits no day at all, while the demos admit some. |
| DayModes.WidgetDayAllowed | packages/react-timemint-component/src/TimeMintBooking.tsx:127-128 | On `weekdays` it admits exactly the demo mapping's weekdays {1..5}. On `all` it admits every day. Any other value, `weekends` included, admits no day. |
| Calendar.ExtractBusy | examples/timemint-demo-site/src/App.jsx:125-129 | Every event with both a start and an end `dateTime` contributes its `[start, end)` pair. Every pair comes from such an event. There are never more pairs than events. A calendar without timed events gives no pairs. |
| Calendar.ExtractBusyAppend | examples/timemint-component-demo-site/api/creator-available-slots.js:45-50 | Extraction keeps event order: it distributes over concatenation of event lists. |
| Calendar.OverlapsAny | examples/timemint-demo-site/src/App.jsx:138-140 | True iff some busy pair satisfies the strict test `slotStart < bEnd && slotEnd > bStart`. A slot that only touches a busy pair is not blocked. |
| Calendar.AnyEventBlocks | packages/react-timemint-component/src/TimeMintBooking.tsx:138-142 | True iff some event with a start and an end overlaps the slot under the strict test. Each end uses `dateTime`, or else the all-day `date`. |
| Calendar.BlocksWidgetSlot | packages/react-timemint-component/src/TimeMintBooking.tsx:138-142 | An event blocks only if it has both a start and an end. On a timed event it blocks exactly when the slot overlaps the event's busy pair under the strict test the nested walks use. |
| Calendar.AllDayEventBlocksOnlyInWidget | packages/react-timemint-component/src/TimeMintBooking.tsx:116-117 | An all-day event covering a slot blocks it in the widget's scan. The same event yields no busy pair in the nested-walk extraction. |
| NestedWalk.Visit | examples/timemint-demo-site/src/App.jsx:135-146 | At most the candidate itself is appended. It is appended iff it ends by the horizon and is kept, i.e. starts after `now` and overlaps no busy pair. The step leaves with `HorizonExceeded` iff the candidate ends after the horizon, and with `CapReached` iff the append fills the cap. |
| NestedWalk.MinuteLoop | examples/timemint-demo-site/src/App.jsx:134-148 | The slot list only grows, and only by kept candidates that end by the horizon. Started below the cap, it never passes the cap. It finishes normally only below the cap, and leaves with `CapReached` only at the cap. |
| NestedWalk.HourLoop | examples/timemint-demo-site/src/App.jsx:133-149 | The promises of the minute loop, over all working hours of one day. |
| NestedWalk.DayLoop | examples/timemint-demo-site/src/App.jsx:131-150 | The slot list only grows, and only by kept candidates that end by the horizon. Started below the cap, it never passes the cap. |
| NestedWalk.Run | examples/timemint-demo-site/src/App.jsx:130-150 | Every returned slot starts after `now`, ends by the horizon and overlaps no busy pair. With a cap of at least one there are at most cap slots. |
| NestedCandidates.WalkIsFlat | examples/timemint-demo-site/src/App.jsx:131-150 | The three nested loops, with the labelled `break outer` on the horizon and on the cap, compute the same list as one loop over the flat list of day/hour/half-hour candidates. |
| NestedProperties.RunIsFirstOpenSlots | examples/timemint-demo-site/src/App.jsx:131-150 | The walk returns the first `maxSlots` open slots in strictly ascending order. An open slot is 30 minutes on the half-hour grid, inside [START_HOUR, END_HOUR), on an allowed weekday, starts after `now`, ends by the horizon and overlaps no busy pair. Every returned slot is open. Every open slot is returned unless the cap was reached before it. There are at most `maxSlots` slots when `maxSlots >= 1`. |
| NestedProperties.GridClockFields | examples/timemint-demo-site/src/App.jsx:133-135 | A visited candidate has a clock hour in [START_HOUR, END_HOUR), a minute of 0 or 30, and no seconds. |
| Slots.ToWire | examples/timemint-demo-site/src/App.jsx:142-145 | One record per interval, in order. For intervals on whole seconds, `Math.floor(t / 1000)` times 1000 gives back `t`. |
| Slots.WireRoundTrip | examples/timemint-demo-site/src/App.jsx:142-145 | Reading the records back in milliseconds returns the original intervals whenever they lie on whole seconds. |
| CallSites.NestedSlots | examples/timemint-demo-site/src/App.jsx:142-145 | One record per slot of the walk. For every setting, reading the records back in milliseconds gives exactly the walk's slots: a candidate starts at midnight plus whole hours and minutes, so it lies on whole seconds even when the hours roll into another day. |
| CallSites.NestedSlotsSpec | examples/timemint-component-demo-site/api/creator-available-slots.js:51-73 | Each record as emitted in seconds satisfies all of the following: <br>- it is 1800 s long; <br>- it starts after `now`; <br>- it ends by `now + 14 days`; <br>- its hour is in [START_HOUR, END_HOUR) and its minute is 0 or 30; <br>- its weekday is allowed; <br>- it overlaps no busy pair. <br>The records are strictly ascending and at most `MAX_SLOTS`. Every open slot of the fortnight is among them unless the cap was reached first. |
| CallSites.DemoSiteSlots | examples/timemint-demo-site/src/App.jsx:89-150 | Both branches keep every promise of `NestedSlotsSpec`, soundness and completeness alike. The simulated branch uses no busy pairs; the calendar branch uses the pairs extracted from the events. Each record is open, the records are ascending and at most `MAX_SLOTS`, and every open slot of the fortnight is among them unless the cap was reached before it. |
| CallSites.SimulatedIsCalendarWithoutTimedEvents | examples/timemint-demo-site/src/App.jsx:92-108 | The simulated branch yields exactly the list the calendar branch yields for a calendar with no timed events. |
| CallSites.ComponentDemoSlots | examples/timemint-component-demo-site/src/App.jsx:37-58 | The component demo's simulated slots keep every promise of `NestedSlotsSpec` with no busy pairs: each record is open, they are ascending and at most `MAX_SLOTS`, and every open slot of the fortnight is among them unless the cap was reached before it. |
| CallSites.CreatorAvailableSlots | examples/timemint-component-demo-site/api/creator-available-slots.js:45-73 | The handler's slots keep every promise of `NestedSlotsSpec` for the pairs extracted from the events, completeness included. No slot overlaps the interval of any timed event. |
| Widget.WithDefaults | packages/react-timemint-component/src/TimeMintBooking.tsx:28-31 | A passed prop is used as given. With none passed, the settings are 5 slots, hours 9 to 17 and `weekdays`. |
| Widget.DefaultPropsOfferWeekdayOfficeHours | packages/react-timemint-component/src/TimeMintBooking.tsx:28-31 | A widget placed without the four props offers at most five slots. Each is on a weekday (Monday to Friday), starts in hour 9 or later and ends in hour 17 or earlier. |
| Widget.ConsecutiveSlots | packages/react-timemint-component/src/TimeMintBooking.tsx:86-104 | Exactly `maxBookingSlots` slots when that is non-negative, and none otherwise. Slot `i` covers today at `bookingStartHour`:00 plus `i` half hours, and is labelled `Available`. Each slot is 1800 s and ends where the next starts. No weekday, end-hour or past filter is applied. |
| Widget.FloorToHalfHour | packages/react-timemint-component/src/TimeMintBooking.tsx:122-124 | Zeroing the seconds and rounding the minutes down to a multiple of 30 yields the half-hour boundary `r` with `r <= t < r + 30 min`. |
| Widget.FloorToHalfHourShift | packages/react-timemint-component/src/TimeMintBooking.tsx:151 | Advancing the cursor by `j` half hours advances its floored slot start by exactly `j` half hours. |
| Widget.ScanCandidate | packages/react-timemint-component/src/TimeMintBooking.tsx:122-126 | The candidate is 30 minutes long, starts on the half-hour grid and contains the cursor. |
| Widget.ScanWindow | packages/react-timemint-component/src/TimeMintBooking.tsx:127-137 | An accepted window is non-empty and ends by `maxTime`. It lies inside one calendar day, and the setting admits that day's weekday. |
| Widget.ScanLoopFacts | packages/react-timemint-component/src/TimeMintBooking.tsx:119-152 | The loop only appends. Every appended slot passes the window and overlap tests, is a half hour on the grid and starts at or after the cursor's floor. The list stays strictly ascending. Started below the cap it never passes the cap, and started at the cap it adds nothing. |
| Widget.ScanLoopComplete | packages/react-timemint-component/src/TimeMintBooking.tsx:119-152 | Every cursor position before `maxTime` whose half hour passes both tests yields that slot, unless the cap was reached by slots that all start before it. |
| Widget.CalendarSlots | packages/react-timemint-component/src/TimeMintBooking.tsx:119-153 | At most `maxBookingSlots` records, and none when that is below one. Every record is labelled `Available`. |
| Widget.CalendarSlotsSpec | packages/react-timemint-component/src/TimeMintBooking.tsx:105-153 | There are at most `maxBookingSlots` slots, strictly ascending. Each slot satisfies all of the following: <br>- it is labelled `Available` and is 1800 s on the half-hour grid; <br>- it starts no earlier than the half hour holding `now` + 5 min; <br>- its start hour is at least `bookingStartHour`; <br>- its end hour is at most `bookingEndHour`; <br>- it ends by `maxTime`; <br>- it is on an admitted weekday; <br>- it does not cross midnight; <br>- no event blocks it. <br>Every accepted half hour of the week, starting at `now` + 5 min, is returned unless the cap was reached by slots that all start before it. So the slots are the first `maxBookingSlots` accepted half hours of the week. |
| Widget.ScanAdmitsSlotStartingAtEndHour | packages/react-timemint-component/src/TimeMintBooking.tsx:130-137 | The end-hour test reads the slot's END hour, so the half hour that starts exactly at `bookingEndHour`:00 passes the window test. |
| Widget.ScanCanOfferSlotBeforeNow | packages/react-timemint-component/src/TimeMintBooking.tsx:108-137 | The scan has no past filter. On a Monday at 09:20 with hours from 9, the first slot offered is 09:00-09:30, which starts before `now`. |
| Widget.SliceToFront | packages/react-timemint-component/src/TimeMintBooking.tsx:153 | `slice(0, n)` returns a prefix. For `n >= 0` the prefix has length `min(n, len)`. |
| Widget.RemoveBooked | packages/react-timemint-component/src/TimeMintBooking.tsx:179 | A slot remains iff it was listed and its (start, end) differs from the booked slot's. |
| Widget.RemoveBookedAppend | packages/react-timemint-component/src/TimeMintBooking.tsx:179 | The remaining slots keep their order: removal distributes over concatenation. |
| Widget.RemoveBookedIdempotent | packages/react-timemint-component/src/TimeMintBooking.tsx:179 | Removing the same booking a second time changes nothing. |
| Erc721.OwnerOf | contracts/src/lib.rs:158-164 | Fails with `InvalidTokenId` exactly when the stored owner is the zero address. Otherwise it returns that nonzero owner. |
| Erc721.RequireAuthorizedToSpend | contracts/src/lib.rs:79-94 | Succeeds iff all of the following hold: the token exists; `from` is its owner; the sender is the owner, an operator of the owner, or the token's approved address. Otherwise it fails in this order: `InvalidTokenId`, then `NotOwner`, then `NotApproved`. |
| Erc721.Transfer | contracts/src/lib.rs:95-114 | Fails with `NotOwner` iff the stored owner is not `from`. On success: <br>- the owner becomes `to` and the token's approval is cleared; <br>- no other token's owner or approval changes; <br>- `from` loses one and `to` gains one, modulo 2^256, when they differ; <br>- a self-transfer leaves the balance as it was; <br>- no other balance changes, and neither do operators or supply. |
| Erc721.Mint | contracts/src/lib.rs:135-140 | Succeeds iff the id equal to the current supply is unowned. It returns the old supply as the new id. The supply grows by one, modulo 2^256. The new id is owned by `to`, and no other owner changes. |
| Erc721.Burn | contracts/src/lib.rs:141-144 | Succeeds iff `from` owns the token. Afterwards both `OwnerOf` and `TokenUri` fail for that id, and no other owner changes. |
| Erc721.TransferFrom | contracts/src/lib.rs:186-193 | A zero recipient fails with `TransferToZero` before any authorisation check. Otherwise it succeeds iff the sender is authorised, and fails with the authorisation error. On success the result is exactly that of `transfer`: `to` owns the token and its approval is cleared. `from` loses one and `to` gains one (modulo 2^256) when they differ, and no other owner, approval, balance, operator flag or the supply changes. |
| Erc721.CallReceiver | contracts/src/lib.rs:115-130 | Accepts iff the recipient has no code, or it returns the big-endian selector `0x150b7a02`. A reverted hook or another selector is refused. |
| Erc721.SafeTransferFrom | contracts/src/lib.rs:165-185 | Succeeds iff `transfer_from` would succeed and the receiver check accepts. It then leaves the record `transfer_from` leaves. A refusal reverts the transfer. |
| Erc721.Approve | contracts/src/lib.rs:194-202 | Succeeds iff the token exists and the sender is its owner or an operator of the owner. It then sets that token's approval and changes nothing else. |
| Erc721.SetApprovalForAll | contracts/src/lib.rs:203-208 | Sets exactly the (sender, operator) flag. Every other pair is unchanged, and so is every other field: owners, balances, approvals and the supply. |
| Erc721.SupportsInterface | contracts/src/lib.rs:215-224 | True iff the big-endian id is ERC-165 `0x01ffc9a7`, ERC-721 `0x80ac58cd` or ERC-721 Metadata `0x5b5e139f`. `0xffffffff` is never supported. |
| Erc721.SupportsInterfaceAsEip165Requires | contracts/src/lib.rs:215-224 | The answers the Specification section of EIP-165 fixes: `true` for `0x01ffc9a7`, `false` for `0xffffffff`, and `true` for the ERC-721 and Metadata ids. |
| Erc721.TokenUri | contracts/src/lib.rs:151-154 | Fails exactly as `owner_of` does. Otherwise it returns `https://timemint.xyz/api/slot/` followed by decimal digits and then `.json`. The digits parse back to the token id and have no leading zero, so they are the canonical `to_string()` rendering. |
| Decimal.ParseToDecimal | contracts/src/lib.rs:24-29 | The decimal rendering of the id parses back to the id. |
| Erc721.MintPreservesWellFormed | contracts/src/lib.rs:135-140 | Suppose every owned id is below the supply and the counter does not wrap. Then minting succeeds, keeps that invariant and raises the supply by exactly one. |
| Erc721.TransferPreservesWellFormed | contracts/src/lib.rs:141-208 | `transfer_from`, `burn`, `approve` and `set_approval_for_all` each keep every owned id below the supply. |
| Words.LowLimb | contracts/src/lib.rs:359-363 | The loop bound is the low 64 bits of the count. It equals the count whenever the count is below 2^64. |
| TimeMint.Init | contracts/src/lib.rs:272-280 | Fails with "Already initialized" iff the admin key is not all zeros. Otherwise the key becomes the admin address followed by 12 zero bytes, and nothing else changes. |
| TimeMint.InitOnce | contracts/src/lib.rs:272-280 | After a successful `init`, a second one succeeds exactly when the first named the zero address. |
| TimeMint.SiteKey | contracts/src/lib.rs:284-288 | Byte `i` of the key is byte `i` of the id for `i < min(len, 32)`, and zero beyond. |
| TimeMint.SiteKeyTruncates | contracts/src/lib.rs:284-288 | Ids that agree on their first 32 bytes share a key. |
| TimeMint.SiteKeyIgnoresTrailingZero | contracts/src/lib.rs:284-288 | A short id and the same id with a zero byte appended share a key. |
| TimeMint.SiteKeyInjective | contracts/src/lib.rs:284-288 | On ids of at most 32 bytes without zero bytes, two keys are equal iff the ids are. |
| TimeMint.RegisterSite | contracts/src/lib.rs:283-299 | It fails with "Creator already set for this site_id" when the key has a nonzero creator. After that it fails with "Only the creator can register their own site" when the sender is not the creator. Otherwise it sets that key's creator and changes nothing else. |
| TimeMint.RegistrationIsPermanent | contracts/src/lib.rs:289-292 | Once a key has a nonzero creator, no sequence of calls changes it. |
| TimeMint.SetBookingFee | contracts/src/lib.rs:302-311 | Succeeds iff the sender equals the first 20 bytes of the admin key. It then changes only the fee. |
| TimeMint.InitThenSetBookingFee | contracts/src/lib.rs:302-311 | After `init(admin)`, exactly `admin` may set the fee. |
| TimeMint.FeeSplit | contracts/src/lib.rs:333-334 | The creator's share never exceeds the fee. The two shares always add up to the fee, even when `fee * 95` wraps. Without that wrap, the creator's share is `fee*95/100` and the admin keeps at least 5 %. |
| TimeMint.BookSlot | contracts/src/lib.rs:314-344 | It refuses in this order: <br>1. "Invalid slot time range" (`start == 0`, `end == 0` or `end <= start`); <br>2. "No creator registered for this site_id"; <br>3. "Insufficient booking fee". <br>On success it returns the old supply and the supply grows by one. The balances are credited with the two shares. No other field changes, so no owner, creator, times or slot list is written. This is the method body; `TimeMint.BookSlotEntry` adds the entry point's refusal of value. |
| TimeMint.BookSlotEntry | contracts/src/lib.rs:270-331 | `book_slot` as dispatched. It has no `#[payable]`, so any call that sends ether is refused before the body runs. A call succeeds iff it sends nothing and the body's three checks pass with a value of 0, and then it is the body's result. |
| TimeMint.DeployedBookingCreditsNothing | contracts/src/lib.rs:313-341 | As deployed, every booking is refused while the fee is nonzero. A booking that goes through leaves every balance reading as before. |
| TimeMint.CreditedBalances | contracts/src/lib.rs:335-340 | Creator and admin gain their shares, or the whole fee when they are one address. Every other balance is unchanged. |
| TimeMint.BookSlotRecordsNoSlot | contracts/src/lib.rs:341-343 | After a booking, `owner_of`, `slot_metadata` and both slot lists read exactly as before. |
| TimeMint.Withdraw | contracts/src/lib.rs:347-356 | "No balance to withdraw" on a zero balance. "Transfer failed" when the payout fails, and the whole call reverts. Otherwise it pays exactly the previous balance, leaves the sender at zero and changes nothing else. |
| TimeMint.WithdrawOnce | contracts/src/lib.rs:349-351 | A second withdrawal right after a successful one is refused with "No balance to withdraw". |
| TimeMint.BookThenWithdraw | contracts/src/lib.rs:333-354 | Take a creator who is not the admin and holds nothing, and a fee with `100 <= fee * 95 < 2^256`: the creator's share is then positive and nothing wraps. After one booking of its site, the creator withdraws exactly its 95 % share. With a fee of at most 1 the share is 0 and `withdraw` refuses; with a wrapping product the share is not 95 % of the fee. The premise needs a paying call, which the entry point refuses (see `TimeMint.DeployedBookingCreditsNothing`). |
| TimeMint.CollectSlots | contracts/src/lib.rs:358-371 | The loop returns, in index order, the nonzero entries among the first low-64-bit-count indices. A value is listed iff it is nonzero and stored at such an index. |
| TimeMint.NonZeroEntriesContents | contracts/src/lib.rs:363-369 | The reference listing has at most `n` entries. A value is in it iff it is nonzero and stored at an index below `n`. |
| TimeMint.SlotsOfCreator | contracts/src/lib.rs:358-371 | The creator's nonzero slot ids in index order. No listed id is zero. |
| TimeMint.SlotsOfOwner | contracts/src/lib.rs:373-386 | The owner's nonzero slot ids in index order. No listed id is zero. |
| TimeMint.DebugOwnerInfo | contracts/src/lib.rs:403-413 | Exactly one entry per index below the low 64 bits of the count, zeros included. |
| TimeMint.DebugListingFiltersToOwnerEntries | contracts/src/lib.rs:403-413 | Dropping the zeros from the debug listing gives the `slots_of_owner` listing. |
| TimeMint.SlotMetadata | contracts/src/lib.rs:388-397 | Either the all-zero triple or the stored triple. The creator is nonzero iff the stored creator, start and end are all nonzero. The zero triple is all zero together. |
| TimeMint.OnErc721Received | contracts/src/lib.rs:399-401 | The contract answers with the selector that the receiver check accepts. |
| TimeMint.Apply | contracts/src/lib.rs:270-356 | Calls go through the entry point, so `book_slot` with value reverts. Only `init` changes the admin key, only `register_site` the site registry, only `set_booking_fee` the fee, only `book_slot` the token storage, and only `book_slot` and `withdraw` the balances. |
| TimeMint.RunCalls | contracts/src/lib.rs:270-356 | Over any sequence of calls, a part of storage that no call in the sequence may change ends as it began. This holds for the admin key without `init`, the registry without `register_site`, the fee without `set_booking_fee` and the token storage without `book_slot`. |
| TimeMint.DeployedContractHasNoSlots | contracts/src/lib.rs:270-414 | From deployment, after any sequence of calls to the public methods: every `owner_of` fails, every `slot_metadata` is zero, and every slot list is empty. |

## Left out

- React rendering, state hooks and effect scheduling: these are UI glue around the generators.
- Calendar and token fetches, OAuth and the API's token cache: these are I/O. The events that arrive are a parameter.
- Wallet and contract client code (ethers calls) and the admin panels: these are not part of the core.
- Local time zones and daylight saving: `new Date(y, m, d, h, m)`, `setDate` and `setHours` use fixed 24-hour days at offset 0. Date formatting for display is not modelled.
- Parsing the environment with `Number(x) || default` and `toLowerCase()`: the settings arrive already parsed and lower-cased.
- The widget's other props (`contractAddress`, `siteId`, `useGoogleCalendar`, `className`, `style`): they select the branch or the contract, or only style the output. The four scheduling props are defaulted by `Widget.WithDefaults`.
- Invalid or unparsable event dates: a missing `dateTime`/`date` is `None`. An invalid `Date` compares false against everything and so never blocks; it is not modelled further.
- The widget sorts events before the scan. This does not change `events.some(...)`, so it is not modelled.
- CallSites.DemoSiteSlots: the promises are stated only for settings with start hour >= 0, end hour <= 24 and a cap of at least 1. With other hours the hour of a candidate rolls into another day and the hour promise does not hold.
- CallSites.ComponentDemoSlots: the same restriction to well-formed settings.
- CallSites.CreatorAvailableSlots: the same restriction to well-formed settings.
- CallSites.NestedSlotsSpec: the same restriction to well-formed settings.
- NestedProperties.RunIsFirstOpenSlots: stated only for working hours with start hour >= 0 and end hour <= 24. With other hours a candidate's hour rolls into another day, so it is not on the grid that `Open` describes.
- Event logs (`Transfer`, `Approval`, `ApprovalForAll`): they have no effect on storage.
- `name`, `symbol`, `balance_of`, `get_approved` and `is_approved_for_all` are plain storage reads. They are the `Erc721.NAME`/`SYMBOL` constants and the readers `BalanceOf`, `GetApproved` and `IsApprovedForAll`, without rows of their own.
- `BookingError` and its string conversion (lib.rs:247-268): no method uses them.
- The `data` bytes passed to `onERC721Received`, and anything the receiver does inside its hook (including re-entering the contract): the hook's reply is a parameter.
- Re-entrancy during `transfer_eth` in `withdraw`: the payout's success is a parameter.
- TimeMint.BookThenWithdraw: it describes the body of `book_slot`, which reads `msg_value` and credits the 95/5 split. As deployed it never applies: `book_slot` has no `#[payable]`, so the entry point refuses every call that sends ether. With a nonzero fee every booking reverts, and no balance is ever credited. `TimeMint.DeployedBookingCreditsNothing` states this.
- TimeMint.BookSlot: the same. It is the method body with `msg_value` as a parameter; `TimeMint.BookSlotEntry` is what a caller reaches.
- UTF-8 encoding of `site_id`: the model takes its bytes.
- Erc721.MintPreservesWellFormed: the invariant is stated only while the supply counter does not wrap. At 2^256 mints the counter wraps to an id that is already owned.
- Wrapping 256-bit arithmetic is modelled as wrap-around modulo 2^256. A build that traps on overflow would instead revert in those cases.
