/**
 Staged source objects: reservations of bytes per owner, and the bounded reader that keeps an upload within what was
 reserved for it.
 */
module StagedObjects {
  import Runs

  type Id = nat

  datatype Reservation = Reservation(key: Id, owner: Id, bytes: nat, active: bool)

  datatype Err = Ok | NotFound | QuotaExceeded

  /** SUM(bytes_reserved) over the owner's active rows. */
  function ActiveBytes(rows: seq<Reservation>, owner: Id): nat {
    if rows == [] then 0
    else ActiveBytes(rows[..|rows| - 1], owner) + Weight(rows[|rows| - 1], owner)
  }

  function Weight(r: Reservation, owner: Id): nat {
    if r.owner == owner && r.active then r.bytes else 0
  }

  predicate HasKey(rows: seq<Reservation>, key: Id) {
    exists i :: 0 <= i < |rows| && rows[i].key == key
  }

  predicate Holds(rows: seq<Reservation>, key: Id) {
    exists i :: 0 <= i < |rows| && rows[i].key == key && rows[i].active
  }

  /** object_key is unique. */
  predicate UniqueKeys(rows: seq<Reservation>) {
    forall i, j :: 0 <= i < j < |rows| ==> rows[i].key != rows[j].key
  }

  function ReserveTx(rows: seq<Reservation>, r: Reservation, maxBytesPerUser: int): (seq<Reservation>, Err) {
    if maxBytesPerUser > 0 && ActiveBytes(rows, r.owner) + r.bytes > maxBytesPerUser then (rows, QuotaExceeded)
    else if HasKey(rows, r.key) then (rows, Ok)  // ON CONFLICT DO NOTHING
    else (rows + [r], Ok)
  }

  function UpdateBytesTx(rows: seq<Reservation>, key: Id, bytes: nat): seq<Reservation> {
    seq(|rows|, i requires 0 <= i < |rows| => if rows[i].key == key && rows[i].active then rows[i].(bytes := bytes) else rows[i])
  }

  function ReleaseTx(rows: seq<Reservation>, key: Id): seq<Reservation> {
    seq(|rows|, i requires 0 <= i < |rows| => if rows[i].key == key && rows[i].active then rows[i].(active := false) else rows[i])
  }

  class StagedObjectRepository {
    var rows: seq<Reservation>

    constructor ()
      ensures rows == []
    {
      rows := [];
    }

    method Reserve(r: Reservation, maxBytesPerUser: int) returns (err: Err)
      requires r.active
      modifies this
      ensures (rows, err) == ReserveTx(old(rows), r, maxBytesPerUser)
      ensures UniqueKeys(old(rows)) ==> UniqueKeys(rows)
      ensures err.Ok? ==> (Holds(rows, r.key) <==> !HasKey(old(rows), r.key) || Holds(old(rows), r.key))
      ensures maxBytesPerUser > 0 && err.Ok? ==> ActiveBytes(rows, r.owner) <= maxBytesPerUser
    {
      if maxBytesPerUser > 0 {
        var used := ActiveBytes(rows, r.owner);
        if used + r.bytes > maxBytesPerUser { return QuotaExceeded; }
      }
      if !HasKey(rows, r.key) {
        ghost var before := rows;
        rows := rows + [r];
        assert rows[..|rows| - 1] == before;
        assert rows[|rows| - 1] == r;
      }
      return Ok;
    }

    method UpdateBytes(key: Id, bytes: nat) returns (err: Err)
      modifies this
      ensures rows == UpdateBytesTx(old(rows), key, bytes)
      ensures err == if Holds(old(rows), key) then Ok else NotFound
    {
      err := if Holds(rows, key) then Ok else NotFound;
      rows := UpdateBytesTx(rows, key, bytes);
    }

    method Release(key: Id) returns (err: Err)
      modifies this
      ensures rows == ReleaseTx(old(rows), key) && !Holds(rows, key)
      ensures err == if Holds(old(rows), key) then Ok else NotFound
    {
      err := if Holds(rows, key) then Ok else NotFound;
      rows := ReleaseTx(rows, key);
    }
  }

  /* ---- The bounded reader ---- */

  datatype ReadErr = NoError | EOF | TooLarge | Broken

  /** A bounded reader between two reads: what its source still has, what it may still deliver, what it has delivered. */
  datatype Reader = Reader(rest: seq<bv8>, remaining: int, delivered: seq<bv8>)

  /** One read: some of what is left and allowed, or, once nothing is allowed, a probe for one byte that delivers none. */
  ghost predicate ReadStep(r: Reader, r': Reader) {
    if r.remaining <= 0 then
      r'.remaining == r.remaining && r'.delivered == r.delivered && (r'.rest == r.rest || (r.rest != [] && r'.rest == r.rest[1..]))
    else
      exists k: nat :: k <= |r.rest| && k <= r.remaining && r' == Reader(r.rest[k..], r.remaining - k, r.delivered + r.rest[..k])
  }

  ghost predicate CanReach(source: seq<bv8>, limit: int, r: Reader) {
    Runs.Later(ReadStep, Reader(source, limit, []), r)
  }

  /** What an upload of a source through a reader with this limit may store. */
  ghost predicate CanDeliver(source: seq<bv8>, limit: int, content: seq<bv8>) {
    exists r :: CanReach(source, limit, r) && r.delivered == content
  }

  ghost predicate ReaderKeeps(source: seq<bv8>, limit: int, r: Reader) {
    && r.delivered <= source && r.remaining == limit - |r.delivered|
    && (r.delivered != [] ==> r.remaining >= 0)
    && (r.remaining > 0 ==> r.delivered + r.rest == source)
  }

  /** The reader never delivers more than its limit, nor anything but the start of its source. */
  lemma DeliveredFits(source: seq<bv8>, limit: int, content: seq<bv8>)
    requires CanDeliver(source, limit, content)
    ensures content <= source && |content| <= if limit < 0 then 0 else limit
  {
    var r :| CanReach(source, limit, r) && r.delivered == content;
    forall u, v | ReaderKeeps(source, limit, u) && ReadStep(u, v) ensures ReaderKeeps(source, limit, v) { ReadKeeps(source, limit, u, v); }
    Runs.LaterKeeps(ReadStep, x => ReaderKeeps(source, limit, x), Reader(source, limit, []), r);
  }

  lemma ReadKeeps(source: seq<bv8>, limit: int, r: Reader, r': Reader)
    requires ReaderKeeps(source, limit, r) && ReadStep(r, r')
    ensures ReaderKeeps(source, limit, r')
  {
    if r.remaining > 0 {
      var k: nat :| k <= |r.rest| && k <= r.remaining && r' == Reader(r.rest[k..], r.remaining - k, r.delivered + r.rest[..k]);
      MovedOver(r.delivered, r.rest, k);
    }
  }

  lemma MovedOver(front: seq<bv8>, back: seq<bv8>, k: nat)
    requires k <= |back|
    ensures (front + back[..k]) + back[k..] == front + back && front + back[..k] <= front + back
  {
    assert back == back[..k] + back[k..];
    assert front + back == (front + back[..k]) + back[k..];
  }

  class MaxBytesReader {
    var source: seq<bv8>  // what the wrapped reader still has
    var remaining: int
    ghost const whole: seq<bv8>
    ghost const limit: int
    ghost var delivered: seq<bv8>
    ghost var lost: nat   // bytes the probe at the limit took from the source

    ghost predicate Valid()
      reads this
    {
      Sound() && CanReach(whole, limit, State())
    }

    ghost function State(): Reader
      reads this
    {
      Reader(source, remaining, delivered)
    }

    constructor (data: seq<bv8>, max: int)
      ensures Valid() && whole == data && limit == max && delivered == [] && lost == 0
    {
      source, remaining, whole, limit, delivered, lost := data, max, data, max, [], 0;
      Runs.AtOnce(ReadStep, Reader(data, max, []));
    }

    /** The wrapped reader: some prefix of at most n bytes, an end only when nothing is left, an error at any time. */
    method ReadSource(n: nat) returns (chunk: seq<bv8>, err: ReadErr)
      modifies this`source
      ensures |chunk| <= n && chunk + source == old(source)
      ensures err.EOF? ==> source == []
      ensures !err.TooLarge?
    {
      var k: nat, ended: bool, broken: bool := *, *, *;
      if k > n || k > |source| { k := 0; }
      chunk, source := source[..k], source[k..];
      err := if broken then Broken else if ended && source == [] then EOF else NoError;
    }

    method Read(size: nat) returns (chunk: seq<bv8>, err: ReadErr)
      requires Valid()
      modifies this
      ensures Valid() && |chunk| <= size && delivered == old(delivered) + chunk
      ensures ReadStep(old(State()), State())
      ensures err.TooLarge? ==> |whole| > limit
      ensures err.EOF? && lost == 0 ==> delivered == whole
      ensures lost > old(lost) ==> err.TooLarge?
    {
      ghost var before := State();
      if remaining <= 0 {
        chunk, err := Probe();
      } else {
        chunk, err := Deliver(size);
      }
      Runs.Onwards(ReadStep, Reader(whole, limit, []), before, State());
    }

    /** Valid but for how the state was reached. */
    ghost predicate Sound()
      reads this
    {
      && delivered <= whole && |delivered| + lost <= |whole|
      && source == whole[|delivered| + lost..]
      && remaining == limit - |delivered|
      && (limit >= 0 ==> remaining >= 0)
      && (lost > 0 || limit < 0 ==> remaining <= 0)
      && (limit < 0 ==> delivered == [])
    }

    method Probe() returns (chunk: seq<bv8>, err: ReadErr)
      requires Sound() && remaining <= 0
      modifies this`source, this`lost
      ensures Sound() && chunk == [] && ReadStep(old(State()), State())
      ensures err.TooLarge? ==> |whole| > limit
      ensures err.EOF? && lost == 0 ==> delivered == whole
      ensures lost > old(lost) ==> err.TooLarge?
    {
      chunk, err := ReadSource(1);
      lost := lost + |chunk|;
      if |chunk| > 0 { return [], TooLarge; }
    }

    method Deliver(size: nat) returns (chunk: seq<bv8>, err: ReadErr)
      requires Sound() && remaining > 0
      modifies this`source, this`remaining, this`delivered
      ensures Sound() && |chunk| <= size && delivered == old(delivered) + chunk && ReadStep(old(State()), State())
      ensures !err.TooLarge? && (err.EOF? ==> delivered == whole)
    {
      var n := if size > remaining then remaining else size;
      ghost var before := source;
      chunk, err := ReadSource(n);
      assert chunk == before[..|chunk|] && source == before[|chunk|..];
      remaining := remaining - |chunk|;
      delivered := delivered + chunk;
    }
  }

  /**
   A client that reads until the first error, in chunks of any sizes. Nothing beyond the limit is ever delivered; a clean end
   means the whole source was delivered, and a source beyond the limit never ends cleanly.
   */
  method Upload(reader: MaxBytesReader, sizes: seq<nat>) returns (content: seq<bv8>, err: ReadErr)
    requires reader.Valid() && reader.delivered == [] && reader.lost == 0
    modifies reader
    ensures CanDeliver(reader.whole, reader.limit, content)
    ensures content <= reader.whole && |content| <= if reader.limit < 0 then 0 else reader.limit
    ensures err.EOF? ==> content == reader.whole
    ensures err.TooLarge? ==> |reader.whole| > reader.limit
    ensures err.EOF? && reader.limit >= 0 ==> |reader.whole| <= reader.limit
  {
    content, err := [], NoError;
    for i := 0 to |sizes|
      invariant reader.Valid() && content == reader.delivered && reader.lost == 0 && err.NoError?
    {
      var chunk;
      chunk, err := reader.Read(sizes[i]);
      content := content + chunk;
      if !err.NoError? { return; }
    }
  }

  /* ---- The quota over every interleaving of uploads ---- */

  /** Uploads under way, by object key, with the bytes reserved for each. */
  datatype Staging = Staging(rows: seq<Reservation>, uploads: map<Id, nat>)

  datatype Step =
    | ReserveUpload(r: Reservation)    // an archive upload: reserve the limit, then read through the bounded reader
    | ReserveExact(r: Reservation)     // a git or compose archive, whose size is known
    | FinishUpload(key: Id, source: seq<bv8>, content: seq<bv8>) // record what the bounded reader let through
    | Release(key: Id)

  ghost predicate CanStep(s: Staging, max: int, step: Step) {
    match step
    case ReserveUpload(r) => r.active && !HasKey(s.rows, r.key) && ReserveTx(s.rows, r, max).1.Ok?
    case ReserveExact(r) => r.active && ReserveTx(s.rows, r, max).1.Ok?
    case FinishUpload(key, source, content) => key in s.uploads && CanDeliver(source, s.uploads[key], content)
    case Release(key) => true
  }

  function Next(s: Staging, max: int, step: Step): Staging {
    match step
    case ReserveUpload(r) => Staging(ReserveTx(s.rows, r, max).0, s.uploads[r.key := r.bytes])
    case ReserveExact(r) => s.(rows := ReserveTx(s.rows, r, max).0)
    case FinishUpload(key, source, content) => Staging(UpdateBytesTx(s.rows, key, |content|), s.uploads - {key})
    case Release(key) => s.(rows := ReleaseTx(s.rows, key))
  }

  ghost predicate WithinQuota(s: Staging, max: int) {
    && (forall key :: key in s.uploads ==> HasKey(s.rows, key))
    && (forall i :: 0 <= i < |s.rows| && s.rows[i].key in s.uploads ==> s.rows[i].bytes == s.uploads[s.rows[i].key])
    && (forall owner :: ActiveBytes(s.rows, owner) <= max)
  }

  lemma {:induction false} LighterRows(light: seq<Reservation>, heavy: seq<Reservation>, owner: Id)
    requires |light| == |heavy|
    requires forall i :: 0 <= i < |light| ==> Weight(light[i], owner) <= Weight(heavy[i], owner)
    ensures ActiveBytes(light, owner) <= ActiveBytes(heavy, owner)
  {
    if light != [] { LighterRows(light[..|light| - 1], heavy[..|heavy| - 1], owner); }
  }

  lemma StepWithinQuota(s: Staging, max: int, step: Step)
    requires max > 0 && WithinQuota(s, max) && CanStep(s, max, step)
    ensures WithinQuota(Next(s, max, step), max)
  {
    var t := Next(s, max, step);
    if step.FinishUpload? { DeliveredFits(step.source, s.uploads[step.key], step.content); }
    UploadsHaveRows(s, max, step);
    if |t.rows| > |s.rows| {
      assert t.rows[..|t.rows| - 1] == s.rows;
    } else {
      forall owner { LighterRows(t.rows, s.rows, owner); }
    }
  }

  lemma UploadsHaveRows(s: Staging, max: int, step: Step)
    requires CanStep(s, max, step) && forall key | key in s.uploads :: HasKey(s.rows, key)
    ensures forall key | key in Next(s, max, step).uploads :: HasKey(Next(s, max, step).rows, key)
  {
    var t := Next(s, max, step);
    forall key | key in t.uploads ensures HasKey(t.rows, key) {
      if key in s.uploads {
        var i :| 0 <= i < |s.rows| && s.rows[i].key == key;
        assert t.rows[i].key == key;
      } else {
        assert t.rows[|s.rows|].key == key;
      }
    }
  }

  ghost predicate Stepped(max: int, s: Staging, t: Staging) {
    exists step :: CanStep(s, max, step) && t == Next(s, max, step)
  }

  /** In every interleaving of uploads, the active reservations of an owner stay within the configured maximum. */
  lemma StagedBytesStayWithinQuota(max: int, s: Staging, t: Staging, owner: Id)
    requires max > 0 && WithinQuota(s, max) && Runs.Later((x, y) => Stepped(max, x, y), s, t)
    ensures ActiveBytes(t.rows, owner) <= max
  {
    forall u, v | WithinQuota(u, max) && Stepped(max, u, v) ensures WithinQuota(v, max) {
      var step :| CanStep(u, max, step) && v == Next(u, max, step);
      StepWithinQuota(u, max, step);
    }
    Runs.LaterKeeps((x, y) => Stepped(max, x, y), x => WithinQuota(x, max), s, t);
  }

  lemma NothingStagedIsWithinQuota(max: int)
    requires max > 0
    ensures WithinQuota(Staging([], map[]), max)
  {
  }

  /**
   Resizing an active reservation changes its owner's sum by exactly the difference, so it keeps a maximum exactly when
   the difference still fits: this is what the bounded reader is for.
   */
  lemma {:induction false} ResizeIsExact(rows: seq<Reservation>, i: nat, n: nat, owner: Id)
    requires UniqueKeys(rows) && i < |rows| && rows[i].active
    ensures ActiveBytes(UpdateBytesTx(rows, rows[i].key, n), owner)
            == ActiveBytes(rows, owner) + if rows[i].owner == owner then n - rows[i].bytes else 0
  {
    var key, shorter := rows[i].key, rows[..|rows| - 1];
    var after := UpdateBytesTx(rows, key, n);
    assert after[..|rows| - 1] == UpdateBytesTx(shorter, key, n);
    if i == |shorter| {
      assert UpdateBytesTx(shorter, key, n) == shorter;
    } else {
      ResizeIsExact(shorter, i, n, owner);
    }
  }

  /** A key whose reservation was released cannot be reserved again, although Reserve reports success. */
  lemma ReserveAgainAfterRelease(rows: seq<Reservation>, r: Reservation, max: int)
    requires r.active && UniqueKeys(rows) && ReserveTx(rows, r, max).1.Ok?
    ensures Holds(ReserveTx(rows, r, max).0, r.key) <==> !HasKey(rows, r.key) || Holds(rows, r.key)
  {
    if !HasKey(rows, r.key) { assert (rows + [r])[|rows|] == r; }
  }
}
