/**
 Bodies read under a cap: what a capped body delivers before its first error, and what reading
 it whole under a bound accepts.
 */
module BodyLimit {
  import opened Integers
  import opened Wrappers

  type Byte = bv8

  const MAX_INT64: int := 0x7FFF_FFFF_FFFF_FFFF

  datatype Ending = Eof | Broken

  datatype Error = Ended(ending: Ending) | Refused

  /**
   A body as it comes from the wire: in chunks of any size but none, its ending with the last of
   them or by itself.
   */
  class Wire {
    const body: seq<Byte>
    const ending: Ending
    const sizes: nat -> nat
    const together: nat -> bool
    var at: nat
    var calls: nat

    ghost predicate Valid()
      reads this
    {
      at <= |body|
    }

    constructor (body: seq<Byte>, ending: Ending, sizes: nat -> nat, together: nat -> bool)
      ensures Valid() && this.body == body && this.ending == ending && at == 0
    {
      this.body, this.ending, this.sizes, this.together := body, ending, sizes, together;
      at, calls := 0, 0;
    }

    /** Reads into the first `room` places of a buffer. */
    method Read(p: array<Byte>, room: nat) returns (n: nat, error: Option<Ending>)
      requires Valid() && 0 < room <= p.Length
      modifies this, p
      ensures Valid() && at == old(at) + n && n <= room
      ensures p[..n] == body[old(at)..at]
      ensures n > 0 || error.Some?
      ensures error.Some? ==> error.value == ending && at == |body|
    {
      n := Min(Min(1 + sizes(calls), room), |body| - at);
      for i := 0 to n
        invariant at == old(at) && p[..i] == body[at..at + i]
        modifies p
      {
        p[i] := body[at + i];
      }
      at := at + n;
      error := if n == 0 || (at == |body| && together(calls)) then Some(ending) else None;
      calls := calls + 1;
    }
  }

  /** What a body delivers up to its first error, and that error. */
  datatype Delivery = Delivery(bytes: seq<Byte>, error: Error)

  /** What a cap lets through: nothing declared past it, and of a longer body what fits. */
  function Capped(body: seq<Byte>, ending: Ending, declared: int, limit: int): Delivery {
    if declared > limit || limit < 0 then Delivery([], Refused)
    else if |body| > limit then Delivery(body[..limit], Refused)
    else Delivery(body, Ended(ending))
  }

  /** What a cap lets through is the body, as far as it goes. */
  lemma StretchOfCapped(body: seq<Byte>, ending: Ending, declared: int, limit: int, i: nat, j: nat)
    requires declared <= limit && i <= j <= |body| && j <= limit
    ensures j <= |Capped(body, ending, declared, limit).bytes|
    ensures Capped(body, ending, declared, limit).bytes[i..j] == body[i..j]
  {
  }

  class CappedBody {
    const wire: Wire
    const declared: int
    const limit: int
    var remaining: int

    /** Holds until the first error: what is left of the cap is what the wire has not delivered of it. */
    ghost predicate Valid()
      reads this, wire
    {
      && wire.Valid()
      && (if declared > limit || limit < 0 then remaining < 0 && wire.at == 0
          else 0 <= remaining && remaining == limit - wire.at)
    }

    constructor (wire: Wire, declared: int, limit: int)
      requires wire.Valid() && wire.at == 0
      ensures Valid() && this.wire == wire && this.declared == declared && this.limit == limit
    {
      this.wire, this.declared, this.limit := wire, declared, limit;
      remaining := if declared > limit then -1 else limit;
    }

    ghost function Whole(): Delivery
    {
      Capped(wire.body, wire.ending, declared, limit)
    }

    /** Delivers into the first `room` places of a buffer, and fails on the first byte past the cap. */
    method Read(p: array<Byte>, room: nat) returns (n: nat, error: Option<Error>)
      requires Valid() && room <= p.Length
      modifies this, wire, p
      ensures n <= room && old(wire.at) + n <= |Whole().bytes|
      ensures p[..n] == Whole().bytes[old(wire.at)..old(wire.at) + n]
      ensures error.None? ==> Valid() && wire.at == old(wire.at) + n && (n > 0 || room == 0)
      ensures error.Some? ==> error.value == Whole().error && old(wire.at) + n == |Whole().bytes|
    {
      if room == 0 {
        return 0, None;
      }
      if remaining < 0 {
        return 0, Some(Refused);
      }
      var asked := room;
      if remaining < room {
        asked := remaining + 1;
      }
      ghost var at := wire.at;
      var ended;
      n, ended := wire.Read(p, asked);
      if n > remaining {
        StretchOfCapped(wire.body, wire.ending, declared, limit, at, limit);
        assert p[..remaining] == p[..n][..remaining] == wire.body[at..limit];
        n := remaining;
        remaining := 0;
        return n, Some(Refused);
      }
      remaining := remaining - n;
      assert p[..n] == wire.body[at..wire.at];
      StretchOfCapped(wire.body, wire.ending, declared, limit, at, wire.at);
      return n, if ended.Some? then Some(Ended(ended.value)) else None;
    }
  }

  /** Reads to the first error, with buffers of any size but none. */
  method ReadToError(body: CappedBody, room: nat -> nat) returns (delivery: Delivery)
    requires body.Valid() && body.wire.at == 0
    modifies body, body.wire
    ensures delivery == Capped(body.wire.body, body.wire.ending, body.declared, body.limit)
    ensures body.declared <= body.limit && |body.wire.body| <= body.limit ==>
              delivery.bytes == body.wire.body && delivery.error == Ended(body.wire.ending)
    ensures body.declared <= body.limit < |body.wire.body| && body.limit >= 0 ==>
              delivery.bytes == body.wire.body[..body.limit] && delivery.error == Refused
    ensures body.declared > body.limit ==> delivery.bytes == [] && delivery.error == Refused
  {
    var bytes: seq<Byte> := [];
    var calls := 0;
    ghost var whole := body.Whole();
    while true
      invariant body.Valid()
      invariant body.wire.at <= |whole.bytes| && bytes == whole.bytes[..body.wire.at]
      decreases |whole.bytes| - body.wire.at
    {
      var p := new Byte[1 + room(calls)];
      calls := calls + 1;
      var n, error := body.Read(p, p.Length);
      bytes := bytes + p[..n];
      if error.Some? {
        return Delivery(bytes, error.value);
      }
    }
  }

  /** Delivers at most what is left, then ends. */
  class LimitReader {
    const body: CappedBody
    var left: int

    constructor (body: CappedBody, left: int)
      ensures this.body == body && this.left == left
    {
      this.body, this.left := body, left;
    }

    method Read(p: array<Byte>) returns (n: nat, error: Option<Error>)
      requires body.Valid() && p.Length > 0
      modifies this, body, body.wire, p
      ensures n <= p.Length && left == old(left) - n && (old(left) >= 0 ==> left >= 0)
      ensures old(body.wire.at) + n <= |body.Whole().bytes| || n == 0
      ensures n > 0 ==> p[..n] == body.Whole().bytes[old(body.wire.at)..old(body.wire.at) + n]
      ensures error.None? ==> old(left) > 0 && n > 0 && body.Valid() && body.wire.at == old(body.wire.at) + n
      ensures error.Some? ==>
                || (old(left) <= 0 && n == 0 && error.value == Ended(Eof))
                || (old(left) > 0 && error.value == body.Whole().error && old(body.wire.at) + n == |body.Whole().bytes|)
    {
      if left <= 0 {
        return 0, Some(Ended(Eof));
      }
      n, error := body.Read(p, Min(p.Length, left));
      left := left - n;
    }
  }

  /** Reads until an error, which ending is not. */
  method ReadAll(reader: LimitReader, room: nat -> nat) returns (bytes: seq<Byte>, failure: Option<Error>)
    requires reader.body.Valid() && reader.body.wire.at == 0
    modifies reader, reader.body, reader.body.wire
    ensures
      var whole, bound := reader.body.Whole(), old(reader.left);
      if |whole.bytes| < bound then
        bytes == whole.bytes && failure == (if whole.error == Ended(Eof) then None else Some(whole.error))
      else if failure.None? then bytes == whole.bytes[..if bound < 0 then 0 else bound]
      else |whole.bytes| == bound && failure.value == whole.error != Ended(Eof)
  {
    bytes := [];
    var calls := 0;
    ghost var whole, bound := reader.body.Whole(), reader.left;
    while true
      invariant reader.body.Valid()
      invariant reader.body.wire.at <= |whole.bytes| && bytes == whole.bytes[..reader.body.wire.at]
      invariant reader.left == bound - |bytes| && (bound >= 0 ==> reader.left >= 0) && (bound < 0 ==> |bytes| == 0)
      decreases |whole.bytes| - reader.body.wire.at
    {
      var p := new Byte[1 + room(calls)];
      calls := calls + 1;
      ghost var at := reader.body.wire.at;
      var n, error := reader.Read(p);
      bytes := bytes + p[..n];
      if error.Some? {
        return bytes, if error.value == Ended(Eof) then None else error;
      }
    }
  }

  /**
   Reads a body whole, or refuses it. Whatever chunks it comes in, it is accepted exactly when
   it ends well within both bounds. At the largest bound there is, where one byte more cannot be
   asked for, that holds of shorter bodies; of one as long or longer the bound's worth is
   accepted, unless its own error comes with the last byte of it.
   */
  method LimitedReadAll(body: CappedBody, maxBytes: int, room: nat -> nat) returns (result: Result<seq<Byte>, Error>)
    requires body.Valid() && body.wire.at == 0 && maxBytes <= MAX_INT64
    modifies body, body.wire
    ensures maxBytes < MAX_INT64 || |body.Whole().bytes| < MAX_INT64 ==>
              (result.Ok? <==> body.Whole().error == Ended(Eof) && |body.Whole().bytes| <= maxBytes)
    ensures maxBytes == body.limit < MAX_INT64 ==>
              if body.declared <= body.limit && |body.wire.body| <= body.limit && body.wire.ending == Eof
              then result == Ok(body.wire.body) else result.Err?
    ensures result.Ok? ==>
              result.value == if |body.Whole().bytes| <= maxBytes then body.Whole().bytes else body.Whole().bytes[..maxBytes]
    ensures result.Ok? && |body.Whole().bytes| > maxBytes ==> maxBytes == MAX_INT64
    ensures maxBytes == MAX_INT64 && result.Err? ==>
              |body.Whole().bytes| <= maxBytes && result.error == body.Whole().error && result.error != Ended(Eof)
  {
    var past := maxBytes;
    if past < MAX_INT64 {
      past := past + 1;
    }
    var reader := new LimitReader(body, past);
    var data, failure := ReadAll(reader, room);
    if failure.Some? {
      return Err(failure.value);
    }
    if |data| > maxBytes {
      return Err(Refused);
    }
    return Ok(data);
  }

  /** Reading at the cap accepts the bodies the cap lets through whole, and no others. */
  lemma SameBoundAcceptsSameBodies(body: seq<Byte>, ending: Ending, declared: int, limit: int)
    ensures
      var whole := Capped(body, ending, declared, limit);
      (whole.error == Ended(Eof) && |whole.bytes| <= limit)
        <==> (declared <= limit && |body| <= limit && ending == Eof && whole.bytes == body)
  {
  }
}
