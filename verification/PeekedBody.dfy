// pkg/non2xx_log.go: a non-2xx response body is peeked at for the log and handed on
// so that its reader cannot tell.
module PeekedBody {
  import opened Strings

  type Byte = b: int | 0 <= b < 256

  datatype Error = EOF | Failure(code: int)

  /** One return of an underlying reader; data and an error may come together. */
  datatype Response = Response(data: seq<Byte>, err: Option<Error>)

  /** What a reader will answer, response by response; EOF for ever after the last. What
      follows a failure is arbitrary: a failure need not be repeated. */
  type Script = seq<Response>

  /** What reading up to the first error yields. */
  datatype Content = Content(bytes: seq<Byte>, end: Error)

  const NOTHING := Content([], EOF)

  const PEEK_BYTES := 4096

  function ContentOf(script: Script): Content {
    if script == [] then NOTHING
    else match script[0].err
         case Some(e) => Content(script[0].data, e)
         case None => Behind(script[0].data, ContentOf(script[1..]))
  }

  function Behind(front: seq<Byte>, rest: Content): Content {
    Content(front + rest.bytes, rest.end)
  }

  /** Bounds the reads left: every read with room takes bytes or a response. */
  function ScriptEffort(script: Script): nat {
    if script == [] then 0 else |script[0].data| + 1 + ScriptEffort(script[1..])
  }

  /** The contract of io.Reader in terms of contents: bytes come off the front, an
      error is reported at the end only and is the end, and EOF is final. */
  predicate Reads(before: Content, max: nat, bytes: seq<Byte>, err: Option<Error>, after: Content) {
    && |bytes| <= max
    && match err
       case None => before == Behind(bytes, after)
       case Some(e) => before == Content(bytes, e) && (e == EOF ==> after == NOTHING)
  }

  /** The original response body. */
  class Stream {
    var script: Script

    constructor (script: Script)
      ensures this.script == script
    {
      this.script := script;
    }

    method Read(max: nat) returns (bytes: seq<Byte>, err: Option<Error>)
      modifies this
      ensures Reads(ContentOf(old(script)), max, bytes, err, ContentOf(script))
      ensures max > 0 && err.None? ==> ScriptEffort(script) < ScriptEffort(old(script))
      ensures ScriptEffort(script) <= ScriptEffort(old(script))
    {
      if script == [] {
        return [], Some(EOF);
      }
      var r := script[0];
      if |r.data| > max {
        bytes, err := r.data[..max], None;
        script := [Response(r.data[max..], r.err)] + script[1..];
        assert r.data == r.data[..max] + r.data[max..];
        assert script[1..] == old(script)[1..];
        assert r.err.None? ==>
                 bytes + (r.data[max..] + ContentOf(script[1..]).bytes) == r.data + ContentOf(script[1..]).bytes;
      } else {
        bytes, err := r.data, r.err;
        script := if r.err == Some(EOF) then [] else script[1..];
      }
    }
  }

  /** io.ReadAll(io.LimitReader(s, limit)); chunks(i) is the room io.ReadAll's buffer has at
      its i-th read, never none. A None error is io.ReadAll's nil. */
  method ReadAllLimited(s: Stream, limit: nat, chunks: nat -> nat) returns (prefix: seq<Byte>, err: Option<Error>)
    modifies s
    ensures |prefix| <= limit
    ensures err.None? ==> && ContentOf(old(s.script)) == Behind(prefix, ContentOf(s.script))
                          && (|prefix| == limit || ContentOf(s.script) == NOTHING)
    ensures err.Some? ==> err.value != EOF && ContentOf(old(s.script)) == Content(prefix, err.value)
  {
    prefix := [];
    var i := 0;
    while |prefix| < limit
      invariant |prefix| <= limit
      invariant ContentOf(old(s.script)) == Behind(prefix, ContentOf(s.script))
      decreases ScriptEffort(s.script)
    {
      var room := if 0 < chunks(i) <= limit - |prefix| then chunks(i) else limit - |prefix|;
      ghost var before, seen := ContentOf(s.script), prefix;
      var bytes, e := s.Read(room);
      prefix := prefix + bytes;
      i := i + 1;
      if e.Some? {
        assert before == Content(bytes, e.value);
        if e.value == EOF {
          assert Behind(prefix, NOTHING) == Content(prefix, EOF);
          return prefix, None;
        }
        return prefix, e;
      }
      assert seen + (bytes + ContentOf(s.script).bytes) == prefix + ContentOf(s.script).bytes;
    }
    return prefix, None;
  }

  /** The body handed back: io.MultiReader over the buffered prefix and the rest, which is
      the original body or, when peeking failed, a reader repeating that failure. */
  class Peeked {
    var prefix: seq<Byte>
    var readers: nat
    const body: Stream
    const failure: Option<Error>

    constructor (prefix: seq<Byte>, body: Stream, failure: Option<Error>)
      requires failure != Some(EOF)
      ensures Valid() && readers == 2 && this.prefix == prefix && this.body == body && this.failure == failure
    {
      this.prefix, readers, this.body, this.failure := prefix, 2, body, failure;
    }

    ghost predicate Valid()
      reads this
    {
      readers <= 2 && failure != Some(EOF)
    }

    ghost function Rest(): Content
      reads this, body
    {
      if failure.Some? then Content([], failure.value) else ContentOf(body.script)
    }

    ghost function Contents(): Content
      reads this, body
    {
      if readers == 0 then NOTHING else if readers == 1 then Rest() else Behind(prefix, Rest())
    }

    ghost function Effort(): nat
      reads this, body
    {
      readers + |prefix| + ScriptEffort(body.script)
    }

    method ReadFirst(max: nat) returns (bytes: seq<Byte>, err: Option<Error>)
      requires Valid() && readers > 0
      modifies this, body
      ensures Valid() && readers == old(readers)
      ensures old(readers) == 2 ==> && body.script == old(body.script)
                                    && old(prefix) == bytes + prefix && |bytes| <= max
                                    && (if old(prefix) == [] then err == Some(EOF) else err.None?)
                                    && (max > 0 && err.None? ==> bytes != [])
      ensures old(readers) == 1 ==> prefix == old(prefix) && Reads(old(Rest()), max, bytes, err, Rest())
      ensures Effort() <= old(Effort())
      ensures max > 0 && err.None? ==> Effort() < old(Effort())
    {
      if readers == 2 {
        // bytes.Reader
        if prefix == [] {
          return [], Some(EOF);
        }
        var n := if max < |prefix| then max else |prefix|;
        bytes, err := prefix[..n], None;
        prefix := prefix[n..];
      } else if failure.Some? {
        // errReader
        return [], failure;
      } else {
        bytes, err := body.Read(max);
      }
    }

    /** Reading the restored body obeys the reader contract on its contents. */
    method Read(max: nat) returns (bytes: seq<Byte>, err: Option<Error>)
      requires Valid()
      modifies this, body
      ensures Valid()
      ensures Reads(old(Contents()), max, bytes, err, Contents())
      ensures max > 0 && err.None? ==> Effort() < old(Effort())
    {
      while readers > 0
        invariant Valid() && readers <= old(readers)
        invariant Contents() == old(Contents())
        invariant Effort() <= old(Effort())
        decreases readers
      {
        bytes, err := ReadFirst(max);
        if err == Some(EOF) {
          readers := readers - 1;
        }
        if |bytes| > 0 || err != Some(EOF) {
          if err == Some(EOF) && readers > 0 {
            err := None;
          }
          return;
        }
      }
      return [], Some(EOF);
    }
  }

  datatype Body = NoBody | Plain(stream: Stream) | Restored(peeked: Peeked)

  class HttpResponse {
    const statusCode: int
    var body: Body

    constructor (statusCode: int, body: Body)
      ensures this.statusCode == statusCode && this.body == body
    {
      this.statusCode, this.body := statusCode, body;
    }
  }

  /** Answers what is logged: nothing for a 2xx, else the peeked prefix. The caller's body
      then reads exactly as the original would have, and no byte has left the original but
      those logged: the first 4096, or all in front of the end or of a failure. */
  method LogNon2xxResponse(resp: HttpResponse, chunks: nat -> nat) returns (logged: Option<seq<Byte>>)
    requires !resp.body.Restored?
    modifies resp, if resp.body.Plain? then {resp.body.stream} else {}
    ensures logged.None? <==> 200 <= resp.statusCode <= 299
    ensures logged.None? || old(resp.body).NoBody? ==> resp.body == old(resp.body)
    ensures logged.None? && resp.body.Plain? ==> resp.body.stream.script == old(resp.body.stream.script)
    ensures logged.Some? && old(resp.body).Plain? ==>
              && resp.body.Restored? && fresh(resp.body.peeked) && resp.body.peeked.Valid()
              && resp.body.peeked.body == old(resp.body.stream)
              && resp.body.peeked.Contents() == old(ContentOf(resp.body.stream.script))
              && resp.body.peeked.prefix == logged.value && resp.body.peeked.readers == 2
              && |logged.value| <= 4096
              && (match resp.body.peeked.failure
                  case None =>
                    var left := ContentOf(resp.body.peeked.body.script);
                    && old(ContentOf(resp.body.stream.script)) == Behind(logged.value, left)
                    && (|logged.value| == 4096 || left == NOTHING)
                  case Some(e) => old(ContentOf(resp.body.stream.script)) == Content(logged.value, e))
  {
    if resp.statusCode >= 200 && resp.statusCode <= 299 {
      return None;
    }
    var prefix: seq<Byte> := [];
    if resp.body.Plain? {
      var stream := resp.body.stream;
      var readErr;
      prefix, readErr := ReadAllLimited(stream, PEEK_BYTES, chunks);
      var peeked := new Peeked(prefix, stream, readErr);
      assert Behind(prefix, Content([], EOF)).bytes == prefix;
      assert prefix + [] == prefix;
      resp.body := Restored(peeked);
    }
    return Some(prefix);
  }

  /** A caller draining a restored body with any buffer sizes gets its contents. */
  method Drain(p: Peeked, sizes: nat -> nat) returns (bytes: seq<Byte>, end: Error)
    requires p.Valid()
    modifies p, p.body
    ensures Content(bytes, end) == old(p.Contents())
  {
    bytes := [];
    var i := 0;
    while true
      invariant p.Valid()
      invariant old(p.Contents()) == Behind(bytes, p.Contents())
      decreases p.Effort()
    {
      ghost var before, seen := p.Contents(), bytes;
      var chunk, err := p.Read(sizes(i) + 1);
      bytes := bytes + chunk;
      i := i + 1;
      if err.Some? {
        return bytes, err.value;
      }
      assert seen + (chunk + p.Contents().bytes) == bytes + p.Contents().bytes;
    }
  }

  // ---- every caller --------------------------------------------------------

  datatype Chunk = Chunk(max: nat, bytes: seq<Byte>, err: Option<Error>)

  function Concat(chunks: seq<Chunk>): seq<Byte> {
    if chunks == [] then [] else chunks[0].bytes + Concat(chunks[1..])
  }

  /** contents[i] is what is left before the i-th of a caller's reads, which stop at the
      first error. */
  predicate Reading(contents: seq<Content>, chunks: seq<Chunk>) {
    && |contents| == |chunks| + 1
    && (forall i :: 0 <= i < |chunks| ==>
          Reads(contents[i], chunks[i].max, chunks[i].bytes, chunks[i].err, contents[i + 1]))
    && (forall i :: 0 <= i < |chunks| - 1 ==> chunks[i].err.None?)
  }

  /** Two readers with the same contents cannot be told apart, whatever the buffer sizes: a
      caller that reaches an error has every byte and the original error, and any other has
      a front part of the bytes. */
  lemma {:induction false} CallersSeeTheContent(contents: seq<Content>, chunks: seq<Chunk>)
    requires Reading(contents, chunks)
    ensures Concat(chunks) <= contents[0].bytes
    ensures chunks != [] && chunks[|chunks| - 1].err.Some? ==>
              contents[0] == Content(Concat(chunks), chunks[|chunks| - 1].err.value)
  {
    if chunks != [] {
      var c, d := contents[1..], chunks[1..];
      assert forall i {:trigger d[i]} :: 0 <= i < |d| ==>
               d[i] == chunks[i + 1] && c[i] == contents[i + 1] && c[i + 1] == contents[i + 2];
      CallersSeeTheContent(c, d);
      if |chunks| == 1 { assert Concat(d) == []; }
    }
  }
}
