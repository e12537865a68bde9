/** The byte accountant of one selection: a signed 64-bit counter under a ceiling. */
module Accounting {
  import opened Common

  datatype AccountError = LimitExceeded | AccountingOverflow

  // The size fits under the ceiling on top of what is used.
  predicate Fits(ceiling: int64, used: int64, size: int64) {
    0 <= size && used + size <= ceiling
  }

  predicate Releasable(used: int64, size: int64) {
    0 <= size <= used
  }

  class Accountant {
    const ceiling: int64
    var used: int64

    ghost predicate Valid()
      reads this
    {
      0 <= used <= ceiling
    }

    constructor (ceiling: int64)
      requires ceiling > 0
      ensures Valid() && used == 0 && this.ceiling == ceiling
    {
      this.ceiling := ceiling;
      used := 0;
    }

    method WouldExceedBytes(size: int64) returns (exceeds: bool, err: Option<AccountError>)
      requires Valid()
      ensures exceeds <==> !Fits(ceiling, used, size)
      ensures err == if size < 0 || used + size > MAX_INT64 then Some(AccountingOverflow) else None
    {
      if size < 0 || used > MAX_INT64 - size { return true, Some(AccountingOverflow); }
      return used + size > ceiling, None;
    }

    method AddBytes(size: int64) returns (err: Option<AccountError>)
      requires Valid()
      modifies this
      ensures Valid()
      ensures err == None <==> Fits(ceiling, old(used), size)
      ensures used == if err == None then old(used) + size else old(used)
    {
      var exceeds, overflow := WouldExceedBytes(size);
      if overflow.Some? { return overflow; }
      if exceeds { return Some(LimitExceeded); }
      used := used + size;
      return None;
    }

    method ReleaseBytes(size: int64) returns (err: Option<AccountError>)
      requires Valid()
      modifies this
      ensures Valid()
      ensures err == None <==> Releasable(old(used), size)
      ensures used == if err == None then old(used) - size else old(used)
    {
      if size < 0 || size > used { return Some(AccountingOverflow); }
      used := used - size;
      return None;
    }
  }
}
