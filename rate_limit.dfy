/**
 * The daily generation quota and the passcode override of the useRateLimit hook.
 *
 * The hook keeps one DailyRecord {date, count} in a single storage slot, reads it lazily
 * (a record of another day, or unreadable contents, read as a fresh record for today),
 * and caches the number of free generations left in `remaining`. A flag `unlocked`, set by
 * the exact passcode, lifts the quota while the page stays mounted; it is React state, not
 * stored, so a reload starts locked again.
 * The clock is the parameter `today`: the UTC calendar date, "YYYY-MM-DD".
 */
module RateLimit {

  const DAILY_LIMIT: nat := 3
  const PASSCODE: string := "1122"

  datatype DailyRecord = DailyRecord(date: string, count: nat)

  /** The contents of the one storage slot: nothing (or an empty string), text that does
      not parse as a record, or a record. */
  datatype Slot = Absent | Corrupt | Present(rec: DailyRecord)

  /** The slot holds a record for the given day. */
  predicate HoldsDay(slot: Slot, today: string) {
    slot.Present? && slot.rec.date == today
  }

  /** getRecord: the stored record if it is today's, otherwise a fresh one; never fails. */
  function GetRecord(slot: Slot, today: string): (r: DailyRecord)
    ensures r.date == today
    ensures (slot.Present? && r == slot.rec) <==> HoldsDay(slot, today)
    ensures !HoldsDay(slot, today) ==> r.count == 0
  {
    if HoldsDay(slot, today) then slot.rec else DailyRecord(today, 0)
  }

  /** Math.max(0, DAILY_LIMIT - count): the free generations left after `count` of them. */
  function Remaining(count: nat): (r: nat)
    ensures r <= DAILY_LIMIT
    ensures r == 0 <==> count >= DAILY_LIMIT
    ensures r + count == DAILY_LIMIT || (r == 0 && count > DAILY_LIMIT)
  {
    if count >= DAILY_LIMIT then 0 else DAILY_LIMIT - count
  }

  /** The slot after recordGeneration: today's record with one more generation; a record of
      another day is overwritten, not incremented. */
  function Charge(slot: Slot, today: string): (s: Slot)
    ensures HoldsDay(s, today)
    ensures GetRecord(s, today).count == GetRecord(slot, today).count + 1
    ensures slot.Present? && slot.rec.date != today ==> s.rec.count == 1
  {
    var record := GetRecord(slot, today);
    Present(record.(count := record.count + 1))
  }

  /** The slot after n calls of recordGeneration on the same day. */
  function ChargeTimes(slot: Slot, today: string, n: nat): Slot {
    if n == 0 then slot else Charge(ChargeTimes(slot, today, n - 1), today)
  }

  /** Every call of recordGeneration on the same day adds exactly one to the day's count. */
  lemma {:induction false} ChargeTimesCount(slot: Slot, today: string, n: nat)
    ensures GetRecord(ChargeTimes(slot, today, n), today).count == GetRecord(slot, today).count + n
  {
    if n > 0 {
      ChargeTimesCount(slot, today, n - 1);
    }
  }

  /** From a fresh day (nothing stored, unreadable contents or a stale record), n calls of
      recordGeneration leave the count at n and max(0, 3 - n) free generations: the count
      goes on growing past the limit while the remainder stays at 0. */
  lemma FreshDayAfter(slot: Slot, today: string, n: nat)
    requires !HoldsDay(slot, today)
    ensures n > 0 ==> ChargeTimes(slot, today, n) == Present(DailyRecord(today, n))
    ensures Remaining(GetRecord(ChargeTimes(slot, today, n), today).count) == if n < DAILY_LIMIT then DAILY_LIMIT - n else 0
  {
    ChargeTimesCount(slot, today, n);
  }

  /** A record of another day, even one at the limit, leaves the whole quota for today. */
  lemma StaleRecordResets(rec: DailyRecord, today: string)
    requires rec.date != today
    ensures GetRecord(Present(rec), today) == DailyRecord(today, 0)
    ensures Remaining(GetRecord(Present(rec), today).count) == DAILY_LIMIT
  {
  }

  /** Missing or unreadable storage reads as the whole quota for today, without an error. */
  lemma UnreadableStoreIsFresh(slot: Slot, today: string)
    requires slot == Absent || slot == Corrupt
    ensures GetRecord(slot, today) == DailyRecord(today, 0)
    ensures Remaining(GetRecord(slot, today).count) == DAILY_LIMIT
  {
  }

  /** The state of one useRateLimit hook: the storage slot it reads and writes, and its two
      pieces of React state. */
  class RateLimiter {
    var store: Slot
    var remaining: nat
    var unlocked: bool

    ghost predicate Valid()
      reads this
    {
      remaining <= DAILY_LIMIT
    }

    /** `remaining` agrees with the stored record as read on the given day. */
    ghost predicate Synced(today: string)
      reads this
    {
      remaining == Remaining(GetRecord(store, today).count)
    }

    /** The first render: useState(DAILY_LIMIT) and useState(false), whatever is stored. */
    constructor (store: Slot)
      ensures Valid()
      ensures this.store == store && remaining == DAILY_LIMIT && !unlocked
    {
      this.store := store;
      remaining := DAILY_LIMIT;
      unlocked := false;
    }

    /** The mount effect: reads the record and sets `remaining` from it; writes nothing. */
    method Mount(today: string)
      modifies this`remaining
      ensures Valid() && Synced(today)
    {
      var record := GetRecord(store, today);
      remaining := Remaining(record.count);
    }

    /** canGenerate: the page is unlocked or free generations are left. */
    function CanGenerate(): (b: bool)
      reads this
      ensures unlocked ==> b
      ensures !unlocked ==> (b <==> remaining > 0)
    {
      unlocked || remaining > 0
    }

    /** saveRecord: replaces the slot's contents. */
    method SaveRecord(record: DailyRecord)
      modifies this`store
      ensures store == Present(record)
    {
      store := Present(record);
    }

    /** recordGeneration: reads today's record, adds one, writes it back and refreshes
        `remaining` from the new count. */
    method RecordGeneration(today: string)
      modifies this`store, this`remaining
      ensures Valid() && Synced(today)
      ensures store == Charge(old(store), today)
    {
      var record := GetRecord(store, today);
      record := record.(count := record.count + 1);
      SaveRecord(record);
      remaining := Remaining(record.count);
    }

    /** verifyPasscode: exact comparison with PASSCODE, on every call; a match sets
        `unlocked`, and nothing ever clears it. */
    method VerifyPasscode(code: string) returns (ok: bool)
      modifies this`unlocked
      ensures ok <==> code == PASSCODE
      ensures unlocked == (old(unlocked) || ok)
    {
      if code == PASSCODE {
        unlocked := true;
        return true;
      }
      return false;
    }
  }

  /** While locked and in step with today's record, generating goes ahead exactly while
      fewer than DAILY_LIMIT generations are recorded today. */
  lemma CanGenerateWhileUnderLimit(limiter: RateLimiter, today: string)
    requires !limiter.unlocked && limiter.Synced(today)
    ensures limiter.CanGenerate() <==> GetRecord(limiter.store, today).count < DAILY_LIMIT
  {
  }

  /** Once unlocked, generating goes ahead whatever today's count. */
  lemma CanGenerateOnceUnlocked(limiter: RateLimiter)
    requires limiter.unlocked
    ensures limiter.CanGenerate()
  {
  }

  /** A day's quota: three generations use it up, a wrong passcode changes nothing, the
      right one lifts the limit for a fourth. */
  method LimitThenUnlockScenario(today: string)
  {
    var limiter := new RateLimiter(Absent);
    limiter.Mount(today);
    assert limiter.remaining == DAILY_LIMIT && limiter.CanGenerate();
    limiter.RecordGeneration(today);
    limiter.RecordGeneration(today);
    limiter.RecordGeneration(today);
    assert limiter.store == Present(DailyRecord(today, 3));
    assert !limiter.CanGenerate();
    var ok := limiter.VerifyPasscode("0000");
    assert !ok && !limiter.CanGenerate();
    ok := limiter.VerifyPasscode(" 1122");
    assert !ok && !limiter.CanGenerate();
    ok := limiter.VerifyPasscode(PASSCODE);
    assert ok && limiter.CanGenerate();
    limiter.RecordGeneration(today);
    assert limiter.store == Present(DailyRecord(today, 4)) && limiter.remaining == 0;
    assert limiter.CanGenerate();
  }

  /** `remaining` is a cache: after midnight it still shows yesterday's exhausted quota, and
      canGenerate stays false, although a read of the store would give the whole quota. */
  method StaleCacheScenario(yesterday: string, today: string)
    requires yesterday != today
  {
    var limiter := new RateLimiter(Present(DailyRecord(yesterday, 3)));
    limiter.Mount(yesterday);
    assert !limiter.CanGenerate();
    assert Remaining(GetRecord(limiter.store, today).count) == DAILY_LIMIT;
  }
}
