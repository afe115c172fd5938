/** Register addresses and the poll requests built from them. */
module ModbusTypes {

  datatype RegisterType = Coil | Bit | Holding | Input

  datatype PublishMode = Once | OnChange | EveryPoll

  const INVALID_REFRESH: int := -1

  /** A run of `count` registers of one type starting at `first`. */
  datatype AddressRange = AddressRange(kind: RegisterType, first: int, count: int) {
    function Last(): int {
      first + count - 1
    }

    predicate Has(r: int) {
      first <= r <= Last()
    }

    predicate Overlaps(other: AddressRange) {
      kind == other.kind && first <= other.Last() && other.first <= Last()
    }

    predicate Contains(other: AddressRange) {
      kind == other.kind && first <= other.first && other.Last() <= Last()
    }

    predicate IsConsecutiveOf(other: AddressRange) {
      Last() + 1 == other.first || other.Last() + 1 == first
    }

    /** The smallest range around both. */
    function Merge(other: AddressRange): AddressRange {
      var lo := if first <= other.first then first else other.first;
      var hi := if Last() >= other.Last() then Last() else other.Last();
      AddressRange(kind, lo, hi - lo + 1)
    }
  }

  /** A request to poll a range of one slave's registers. */
  datatype Poll = Poll(slave: int, range: AddressRange, refresh: int, mode: PublishMode) {
    predicate Positive() {
      0 < range.count
    }

    predicate Covers(s: int, k: RegisterType, r: int) {
      slave == s && range.kind == k && range.Has(r)
    }

    predicate Touches(other: Poll) {
      slave == other.slave && range.Overlaps(other.range)
    }

    predicate Within(other: Poll) {
      slave == other.slave && other.range.Contains(range)
    }

    function Merge(other: Poll): Poll {
      Poll(slave, range.Merge(other.range), MergeRefresh(refresh, other.refresh), MergeMode(mode, other.mode))
    }
  }

  /** The shorter period, ignoring periods that are not set. */
  function MergeRefresh(a: int, b: int): int {
    if a == INVALID_REFRESH then b
    else if b != INVALID_REFRESH && a > b then b
    else a
  }

  function MergeMode(a: PublishMode, b: PublishMode): PublishMode {
    match a
    case EveryPoll => a
    case OnChange => if b.EveryPoll? then b else a
    case Once => b
  }

  /** How often a mode publishes. */
  function Rank(m: PublishMode): nat {
    match m case Once => 0 case OnChange => 1 case EveryPoll => 2
  }
}
