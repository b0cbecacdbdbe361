/** The resumption checkpoint `cont`. A search that has to leave the page first stores
    which search to resume and when; the results page reads it once on load, clears it, and
    resumes only when it is at most five minutes old. Storage is the script's key-value store,
    here the `stored` field of a `CheckpointStore`. */
module Checkpoint {
  import opened Text

  /** `{ batch, query, saved, ts }`: resume a batch (else a single date), the page was reached
      by a search of ours, resume the saved-queries search, and the time the record was written
      (milliseconds). */
  datatype Cont = Cont(batch: bool, query: bool, saved: bool, ts: int)

  /** `defaultContVars` */
  const Default := Cont(false, false, false, 0)

  /** A record older than this many milliseconds is not resumed (`60 * 5 * 1000`). */
  const StaleAfter := 300000

  /** What storage holds under `cont`: any of its fields may be missing. */
  datatype StoredCont = StoredCont(batch: Option<bool>, query: Option<bool>, saved: Option<bool>, ts: Option<int>)

  function OrElse<T>(o: Option<T>, d: T): (r: T)
    ensures o.Some? ==> r == o.value
    ensures o.None? ==> r == d
  {
    if o.Some? then o.value else d
  }

  /** `{ ...defaultContVars, ...stored }`: each stored field overrides the default. */
  function Load(s: StoredCont): (c: Cont)
    ensures c.batch == OrElse(s.batch, false) && c.query == OrElse(s.query, false)
    ensures c.saved == OrElse(s.saved, false) && c.ts == OrElse(s.ts, 0)
  {
    Cont(OrElse(s.batch, false), OrElse(s.query, false), OrElse(s.saved, false), OrElse(s.ts, 0))
  }

  /** The stored form of a full record. */
  function Stored(c: Cont): StoredCont
  {
    StoredCont(Some(c.batch), Some(c.query), Some(c.saved), Some(c.ts))
  }

  /** Storing a full record and loading it back gives the record; an empty store loads the defaults. */
  lemma LoadStored(c: Cont)
    ensures Load(Stored(c)) == c
    ensures Load(StoredCont(None, None, None, None)) == Default
  {
  }

  /** What the page does after loading. */
  datatype Resume = NoResume | ResumeSaved | ResumeBulk(singleDate: bool)

  /** The decision of `initSearchBox`: nothing unless the page was reached by our search; nothing
      when the record is over five minutes old (unless `ignoreAge`, the legacy script's debug
      switch); otherwise the saved-queries search, or a batch (`bulkClick(!batch)`). */
  function Decide(c: Cont, now: int, ignoreAge: bool): Resume
  {
    if !c.query then NoResume
    else if now - c.ts > StaleAfter && !ignoreAge then NoResume
    else if c.saved then ResumeSaved
    else ResumeBulk(!c.batch)
  }

  /** A search resumes exactly when the record came from our search and is at most five minutes old. */
  lemma DecideResumes(c: Cont, now: int)
    ensures Decide(c, now, false) != NoResume <==> c.query && now - c.ts <= StaleAfter
    ensures Decide(c, now, false) == ResumeSaved <==> c.query && now - c.ts <= StaleAfter && c.saved
    ensures Decide(c, now, false) == ResumeBulk(true) <==> c.query && now - c.ts <= StaleAfter && !c.saved && !c.batch
  {
  }

  /** A record written by a search and read back within five minutes resumes that search. */
  lemma SaveThenResume(flags: Cont, written: int, now: int)
    requires flags.query && now - written <= StaleAfter
    ensures Decide(Load(Stored(flags.(ts := written))), now, false)
      == if flags.saved then ResumeSaved else ResumeBulk(!flags.batch)
  {
    LoadStored(flags.(ts := written));
  }

  class CheckpointStore {
    /** The record in storage. */
    var stored: Cont

    constructor (initial: Cont)
      ensures stored == initial
    {
      stored := initial;
    }

    /** `regularSearch`, just before it submits the search form: stores the flags with the current time. */
    method Save(flags: Cont, now: int)
      modifies this
      ensures stored == flags.(ts := now)
      ensures forall later :: now <= later <= now + StaleAfter ==>
        Decide(stored, later, false) == if !flags.query then NoResume else if flags.saved then ResumeSaved else ResumeBulk(!flags.batch)
    {
      stored := flags.(ts := now);
    }

    /** The resume block of `initSearchBox`, given the record this page loaded: a record from
        our search is cleared before its age is checked, so it is acted on at most once. */
    method Consume(loaded: Cont, now: int) returns (r: Resume)
      modifies this
      ensures r == Decide(loaded, now, false)
      ensures loaded.query ==> stored == Default
      ensures !loaded.query ==> stored == old(stored)
      ensures loaded.query ==> forall later :: Decide(stored, later, false) == NoResume
    {
      if loaded.query {
        stored := Default;
      }
      r := Decide(loaded, now, false);
    }

    /** The legacy `regularSearch`: each flag is its own stored value and only the flags that
        are set are written, so a flag already stored stays set; the time is always written. */
    method LegacySave(query: bool, batch: bool, saved: bool, now: int)
      modifies this
      ensures stored == Cont(old(stored).batch || batch, old(stored).query || query, old(stored).saved || saved, now)
    {
      stored := Cont(stored.batch || batch, stored.query || query, stored.saved || saved, now);
    }

    /** The legacy resume block: like `Consume`, except that the age check is skipped in debug mode. */
    method LegacyConsume(loaded: Cont, now: int, debug: bool) returns (r: Resume)
      modifies this
      ensures r == Decide(loaded, now, debug)
      ensures loaded.query ==> stored == Default
      ensures !loaded.query ==> stored == old(stored)
    {
      if loaded.query {
        stored := Default;
      }
      r := Decide(loaded, now, debug);
    }
  }

  /** After a cleared checkpoint the legacy additive write stores exactly what the current
      script stores. */
  lemma LegacySaveAfterReset(flags: Cont, now: int)
    ensures Cont(Default.batch || flags.batch, Default.query || flags.query, Default.saved || flags.saved, now) == flags.(ts := now)
  {
  }
}
