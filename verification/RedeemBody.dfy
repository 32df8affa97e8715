/**
 * The bounded read of an enrollment response (hydra-agent/src/device_identity.rs). The transport chooses how
 * many bytes each read delivers, and may break the connection at some position.
 */
module RedeemBody {
  import opened Basics

  const MAX_REDEEM_RESPONSE_BYTES: nat := 65536
  const CHUNK_BYTES: nat := 4096

  /** What the server sends, where (if anywhere) the connection breaks, and how reads are cut. */
  datatype Transport = Transport(content: Bytes, brokenAt: Option<nat>, grant: nat -> nat)

  ghost predicate Valid(t: Transport) {
    t.brokenAt.Some? ==> t.brokenAt.value <= |t.content|
  }

  /** How far reads can get. */
  function Reach(t: Transport): nat { if t.brokenAt.Some? then t.brokenAt.value else |t.content| }

  function Min(a: int, b: int): int { if a <= b then a else b }

  /** One read of at most `available` bytes at `at`: empty only at the end of the content. */
  function ReadAt(t: Transport, at: nat, available: nat): (r: Result<Bytes>)
    requires Valid(t) && at <= Reach(t) && available > 0
    ensures r.Err? <==> t.brokenAt == Some(at)
    ensures r.Ok? ==> |r.value| <= available && at + |r.value| <= Reach(t)
    ensures r.Ok? ==> r.value == t.content[at..at + |r.value|]
    ensures r.Ok? ==> (r.value == [] <==> at == |t.content|)
  {
    if t.brokenAt == Some(at) then Err
    else
      var most := Min(available, Reach(t) - at);
      var n := if t.grant(at) == 0 then Min(1, most) else Min(t.grant(at), most);
      Ok(t.content[at..at + n])
  }

  /** The whole content, or nothing, whichever way the reads were cut; `held` is the most ever retained. */
  method ReadBounded(declared: Option<nat>, t: Transport) returns (r: Result<Bytes>, ghost held: nat)
    requires Valid(t)
    ensures r.Ok? <==>
            && |t.content| <= MAX_REDEEM_RESPONSE_BYTES
            && t.brokenAt.None?
            && (declared.Some? ==> declared.value <= MAX_REDEEM_RESPONSE_BYTES)
    ensures r.Ok? ==> r.value == t.content
    ensures held <= MAX_REDEEM_RESPONSE_BYTES
  {
    held := 0;
    if declared.Some? && declared.value > MAX_REDEEM_RESPONSE_BYTES {
      return Err, held;
    }
    var body: Bytes := [];
    while true
      invariant |body| <= held <= MAX_REDEEM_RESPONSE_BYTES
      invariant |body| <= Reach(t) <= |t.content|
      invariant body == t.content[..|body|]
      decreases |t.content| - |body|
    {
      if |body| == MAX_REDEEM_RESPONSE_BYTES {
        var probe := ReadAt(t, |body|, 1);
        if probe.Err? {
          return Err, held;
        }
        return if probe.value == [] then Ok(body) else Err, held;
      }
      var available := Min(MAX_REDEEM_RESPONSE_BYTES - |body|, CHUNK_BYTES);
      var read := ReadAt(t, |body|, available);
      if read.Err? {
        return Err, held;
      }
      if read.value == [] {
        return Ok(body), held;
      }
      body := body + read.value;
      held := if |body| > held then |body| else held;
    }
  }
}
