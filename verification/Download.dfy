/** Resumable downloads and shared URL refresh (rust/src/client/download.rs). */
module Downloads {
  import opened Clonepack
  import opened Seqs

  const MAX_ATTEMPTS: nat := 3

  type Slot = nat
  type Url = Bytes

  datatype Artifact = Artifact(hash: Digest, len: Option<nat>, slot: Slot)

  /** A parsed `Content-Range`: first and last byte and the total. */
  datatype ContentRange = ContentRange(first: nat, last: nat, total: nat)

  /** What a request gets: nothing, or a status, headers and a body in chunks,
      which may be cut. */
  datatype Response =
    | NoResponse
    | Response(status: nat, contentRange: Option<ContentRange>, contentLength: Option<nat>, chunks: seq<Bytes>,
      cut: bool)

  /** How an attempt ends. */
  datatype Outcome = Complete | Refresh | Retry | Permanent

  predicate IsSuccess(status: nat) { 200 <= status < 300 }

  /** The rule for a failed status; on a signed URL 401 and 403 mean it expired. */
  function ClassifyStatus(status: nat, signed: bool): Outcome
    requires !IsSuccess(status)
  {
    if 500 <= status < 600 || status == 429 || status == 408 then Retry
    else if signed && (status == 401 || status == 403) then Refresh
    else Permanent
  }

  /** The header agrees with what was asked for and with the length promised. */
  predicate ContentRangeOk(range: Option<ContentRange>, offset: nat, end: Option<nat>, len: Option<nat>) {
    && range.Some? && range.value.first == offset
    && range.value.last + 1 == (if end.Some? then end.value else range.value.total)
    && (len.Some? ==> len.value == range.value.total)
  }

  /** An honest answer to a request from `offset` up to `end`: the artifact's bytes,
      all of what it says it sends unless the body is cut. A server may ignore the
      range and send the whole. */
  ghost predicate Honest(r: Response, content: Bytes) {
    match r
    case NoResponse => true
    case Response(status, range, length, chunks, cut) =>
      && (status == 200 ==> Concat(chunks) <= content && (!cut ==> Concat(chunks) == content))
      && (status == 206 ==> HonestRange(range, length, chunks, cut, content))
  }

  ghost predicate HonestRange(range: Option<ContentRange>, length: Option<nat>, chunks: seq<Bytes>, cut: bool,
                              content: Bytes) {
    && range.Some? && range.value.total == |content| && range.value.first <= range.value.last < |content|
    && var sent := content[range.value.first..range.value.last + 1];
    && Concat(chunks) <= sent && (!cut ==> Concat(chunks) == sent)
    && (length.Some? ==> length.value == |sent|)
  }

  /** A server: what it answers to each request, in the order they are made. */
  type Server = (nat, nat, Option<nat>) -> Response

  ghost predicate HonestServer(server: Server, content: Bytes) {
    forall n, offset, end :: Honest(server(n, offset, end), content)
  }

  /** The artifact is this content, as far as its length was promised. */
  predicate Promised(a: Artifact, content: Bytes) {
    a.len.Some? ==> a.len.value == |content|
  }

  predicate Within(len: nat, a: Artifact) {
    a.len.Some? ==> len <= a.len.value
  }

  /** What has come of an artifact; `len` is how much. */
  class Received {
    var body: Bytes
    var len: nat

    ghost predicate Valid()
      reads this
    {
      len == |body|
    }

    constructor ()
      ensures Valid() && body == []
    {
      body, len := [], 0;
    }

    method Write(chunk: Bytes)
      requires Valid()
      modifies this
      ensures Valid() && body == old(body) + chunk
    {
      body, len := body + chunk, len + |chunk|;
    }

    /** Back to no bytes at all: the answer does not go on from those received. */
    method Restart()
      modifies this
      ensures Valid() && body == []
    {
      body, len := [], 0;
    }

    /** Check the length and the hash. */
    method Finish(env: Env, a: Artifact) returns (r: Result<Bytes>)
      requires Valid()
      ensures r.Ok? <==> (a.len.Some? ==> |body| == a.len.value) && env.hash(body) == a.hash
      ensures r.Ok? ==> r.value == body
    {
      if a.len.Some? && len != a.len.value {
        return Err(StreamLength);
      }
      if env.hash(body) != a.hash {
        return Err(WrongBlob);
      }
      return Ok(body);
    }

    /** Write the chunks of a body, until one takes it past the promised length. */
    method WriteBody(chunks: seq<Bytes>, a: Artifact) returns (fits: bool)
      requires Valid() && Within(len, a)
      modifies this
      ensures Valid() && (fits <==> Within(|old(body)| + |Concat(chunks)|, a))
      ensures fits ==> body == old(body) + Concat(chunks)
      ensures body <= old(body) + Concat(chunks)
    {
      hide Concat;
      NoChunks(chunks);
      for i := 0 to |chunks|
        invariant Valid() && body == old(body) + Concat(chunks[..i]) && Within(len, a)
      {
        ChunkNext(chunks, i);
        Write(chunks[i]);
        if a.len.Some? && len > a.len.value {
          return false;
        }
      }
      assert chunks[..|chunks|] == chunks;
      return true;
    }

    /** Take one answer. Whatever it is, a failure that may be retried leaves no more
        than was promised, so the rest still to come is never negative; an honest
        answer leaves the artifact's first bytes, and all of them when complete. */
    method Attempt(a: Artifact, signed: bool, reply: Response, ghost content: Bytes) returns (o: Outcome)
      requires Valid() && Within(len, a)
      modifies this
      ensures Valid() && (!o.Permanent? ==> Within(len, a))
      ensures Honest(reply, content) && Promised(a, content) && old(body) <= content ==>
        body <= content && (o.Complete? ==> body == content)
    {
      if reply.NoResponse? {
        return Retry;
      }
      if !IsSuccess(reply.status) {
        return ClassifyStatus(reply.status, signed);
      }
      if reply.status == 200 {
        if len > 0 {
          Restart();
        }
      } else if reply.status == 206 && len > 0 {
        if !ContentRangeOk(reply.contentRange, len, None, a.len) {
          return Permanent;
        }
        if reply.contentLength.Some? && a.len.Some? {
          assert len <= a.len.value;
          var rest: nat := a.len.value - len;
          if reply.contentLength.value != rest {
            return Permanent;
          }
        }
      } else {
        return Permanent;
      }
      ghost var before := body;
      Resumed(reply, before, content);
      var fits := WriteBody(reply.chunks, a);
      if !fits {
        return Permanent;
      }
      return if reply.cut then Retry else Complete;
    }
  }

  lemma NoChunks(chunks: seq<Bytes>)
    ensures Concat(chunks[..0]) == []
  {}

  lemma ChunkNext(chunks: seq<Bytes>, i: nat)
    requires i < |chunks|
    ensures Concat(chunks[..i + 1]) == Concat(chunks[..i]) + chunks[i]
    ensures Concat(chunks[..i]) + chunks[i] <= Concat(chunks)
  {
    hide Concat;
    ConcatNext(chunks, i);
    PrefixOf(chunks, i + 1);
  }

  lemma PrefixOf(chunks: seq<Bytes>, i: nat)
    requires i <= |chunks|
    ensures Concat(chunks[..i]) <= Concat(chunks) && |Concat(chunks[..i])| <= |Concat(chunks)|
  {
    ConcatAppend(chunks[..i], chunks[i..]);
    assert chunks[..i] + chunks[i..] == chunks;
  }

  /** The whole for no bytes, or the rest after those received. */
  predicate GoesOn(reply: Response, len: nat)
    requires reply.Response?
  {
    if reply.status == 200 then len == 0 else
      reply.status == 206 && ContentRangeOk(reply.contentRange, len, None, None)
  }

  /** A body that goes on from the bytes received, or starts over. */
  lemma Resumed(reply: Response, before: Bytes, content: Bytes)
    requires reply.Response?
    ensures Honest(reply, content) && before <= content && GoesOn(reply, |before|) ==>
      before + Concat(reply.chunks) <= content && (!reply.cut ==> before + Concat(reply.chunks) == content)
  {
    if Honest(reply, content) && before <= content && GoesOn(reply, |before|) && reply.status == 206 {
      var sent := content[|before|..];
      assert content == before + sent;
      assert content[reply.contentRange.value.first..reply.contentRange.value.last + 1] == sent;
    }
  }

  /** The output a clone installs, and its signed URLs. */
  datatype Output = Output(manifest: Digest, metadata: Digest, delta: Digest, urls: map<Slot, Url>)

  predicate SameIdentity(a: Output, b: Output) {
    a.manifest == b.manifest && a.metadata == b.metadata && a.delta == b.delta
  }

  function UrlOf(o: Output, slot: Slot): Option<Url> {
    if slot in o.urls then Some(o.urls[slot]) else None
  }

  /** The URLs of the one output, refreshed by one caller at a time. */
  class OutputUrls {
    const output: Output
    var generation: nat
    var current: Output
    /** The generations that were refreshed, in order. */
    ghost var refreshed: seq<nat>

    /** Every generation so far was refreshed once, and the output is the same. */
    ghost predicate Valid()
      reads this
    {
      && SameIdentity(current, output)
      && |refreshed| == generation && forall g :: 0 <= g < generation ==> refreshed[g] == g
    }

    constructor (output: Output)
      ensures Valid() && this.output == output && generation == 0 && current == output
    {
      this.output, this.current := output, output;
      generation, refreshed := 0, [];
    }

    /** A URL newer than generation `seen`. The first caller of a generation uses
        `answer`, what the server says now; later ones get what it left. */
    method RefreshUrl(slot: Slot, seen: nat, answer: Option<Output>) returns (r: Result<(nat, Url)>)
      requires Valid() && seen <= generation
      modifies this
      ensures Valid()
      ensures r.Ok? ==> seen < r.value.0 == generation && UrlOf(current, slot) == Some(r.value.1)
      ensures (generation == old(generation) && current == old(current) && refreshed == old(refreshed))
        || (old(generation) == seen && generation == seen + 1 && refreshed == old(refreshed) + [seen]
           && answer == Some(current))
      ensures r.Err? || old(generation) > seen ==> generation == old(generation) && current == old(current)
    {
      var url := UrlOf(current, slot);
      if generation > seen {
        return if url.Some? then Ok((generation, url.value)) else Err(Unreadable);
      }
      if answer.None? || !SameIdentity(answer.value, output) {
        return Err(Unreadable);
      }
      url := UrlOf(answer.value, slot);
      if url.None? {
        return Err(Unreadable);
      }
      refreshed := refreshed + [generation];
      generation, current := generation + 1, answer.value;
      return Ok((generation, url.value));
    }
  }

  /** `i * part`. */
  function Times(i: nat, part: nat): nat {
    if i == 0 then 0 else Times(i - 1, part) + part
  }

  /** `len / part`, rounded up. */
  function PartCount(len: nat, part: nat): nat
    requires part > 0
  {
    if len == 0 then 0 else if len <= part then 1 else PartCount(len - part, part) + 1
  }

  /** Part `i` of a download. */
  function PartAt(len: nat, part: nat, i: nat): (nat, nat) {
    (Times(i, part), if Times(i + 1, part) < len then Times(i + 1, part) else len)
  }

  /** The ranges of a download in parts. */
  function Parts(len: nat, part: nat): seq<(nat, nat)>
    requires part > 0
  {
    seq(PartCount(len, part), i requires 0 <= i => PartAt(len, part, i))
  }

  ghost predicate TilesRange(parts: seq<(nat, nat)>, len: nat) {
    && (forall i :: 0 <= i < |parts| ==> parts[i].0 < parts[i].1 <= len)
    && (forall i, j :: 0 <= i < j < |parts| && j == i + 1 ==> parts[i].1 == parts[j].0)
    && (if parts == [] then len == 0 else parts[0].0 == 0 && parts[|parts| - 1].1 == len)
  }

  lemma {:induction false} CountBounds(len: nat, part: nat)
    requires part > 0
    ensures len <= Times(PartCount(len, part), part) < len + part
    ensures PartCount(len, part) == 0 <==> len == 0
  {
    if len > part {
      CountBounds(len - part, part);
    } else if len > 0 {
      assert Times(1, part) == Times(0, part) + part;
    }
  }

  lemma {:induction false} TimesGrows(i: nat, n: nat, p: nat)
    requires i <= n
    ensures Times(i, p) <= Times(n, p)
    decreases n
  {
    if i < n {
      TimesGrows(i, n - 1, p);
    }
  }

  lemma PartFacts(len: nat, part: nat, i: nat)
    requires part > 0 && i < PartCount(len, part)
    ensures Times(i, part) < len && Times(i + 1, part) < len + part && Times(i + 1, part) == Times(i, part) + part
      && Times(0, part) == 0
    ensures i + 1 == PartCount(len, part) ==> Times(i + 1, part) >= len
  {
    CountBounds(len, part);
    TimesGrows(i + 1, PartCount(len, part), part);
  }

  /** The parts tile `[0, len)`, none longer than `part`, and no end is computed
      past `len + part`. */
  lemma PartsTile(len: nat, part: nat)
    requires part > 0
    ensures TilesRange(Parts(len, part), len)
    ensures forall i :: 0 <= i < |Parts(len, part)| ==> PartFits(len, part, i)
  {
    hide Times, PartCount;
    var n, parts := PartCount(len, part), Parts(len, part);
    forall i | 0 <= i < |parts| ensures parts[i].0 < parts[i].1 <= len && PartFits(len, part, i) {
      PartFacts(len, part, i);
    }
    forall i, j | 0 <= i < j < n && j == i + 1 ensures parts[i].1 == parts[j].0 {
      PartFacts(len, part, j);
    }
    if n > 0 {
      PartFacts(len, part, n - 1);
    }
    CountBounds(len, part);
  }

  predicate PartFits(len: nat, part: nat, i: nat) {
    Times(i + 1, part) < len + part && PartAt(len, part, i).1 - PartAt(len, part, i).0 <= part
  }

  /** The bytes of one answer, which are the range asked for or none; nothing when
      the whole was sent instead. */
  function RangeAttempt(a: Artifact, signed: bool, reply: Response, start: nat, end: nat): Result<Option<Bytes>>
    requires start <= end
  {
    if reply.NoResponse? || !IsSuccess(reply.status) then Err(Unreadable)
    else if reply.status == 200 then Ok(None)
    else if reply.status != 206 || !ContentRangeOk(reply.contentRange, start, Some(end), a.len) then Err(BadGeometry)
    else if reply.cut || |Concat(reply.chunks)| != end - start then Err(Unreadable)
    else Ok(Some(Concat(reply.chunks)))
  }

  lemma RangeExact(a: Artifact, signed: bool, reply: Response, start: nat, end: nat, content: Bytes)
    requires start <= end <= |content| && Honest(reply, content)
    ensures var r := RangeAttempt(a, signed, reply, start, end);
      r.Ok? && r.value.Some? ==> r.value.value == content[start..end]
  {}

  /** Bytes `start..end`, with retries and refreshes. */
  method DownloadRange(urls: OutputUrls, a: Artifact, server: Server, answers: nat -> Option<Output>, start: nat,
                       end: nat, ghost content: Bytes)
    returns (r: Result<Option<Bytes>>)
    requires urls.Valid() && start <= end
    modifies urls
    ensures urls.Valid() && urls.generation >= old(urls.generation)
    ensures r.Ok? && r.value.Some? ==> |r.value.value| == end - start
    ensures HonestServer(server, content) && end <= |content| && r.Ok? && r.value.Some? ==>
      r.value.value == content[start..end]
  {
    var generation: nat, url: Option<Url> := urls.generation, UrlOf(urls.current, a.slot);
    for attempt := 1 to MAX_ATTEMPTS + 1
      invariant urls.Valid() && generation <= urls.generation && urls.generation >= old(urls.generation)
    {
      var reply := server(attempt, start, Some(end));
      var got := RangeAttempt(a, url.Some?, reply, start, end);
      if got.Ok? {
        if HonestServer(server, content) && end <= |content| {
          assert Honest(server(attempt, start, Some(end)), content);
          RangeExact(a, url.Some?, reply, start, end, content);
        }
        return got;
      }
      if got == Err(BadGeometry) || attempt == MAX_ATTEMPTS {
        return got;
      }
      if reply.Response? && !IsSuccess(reply.status) {
        var outcome := ClassifyStatus(reply.status, url.Some?);
        if outcome.Permanent? {
          return got;
        }
        if outcome.Refresh? {
          var renewed := urls.RefreshUrl(a.slot, generation, answers(attempt));
          if renewed.Err? {
            return Err(renewed.error);
          }
          generation, url := renewed.value.0, Some(renewed.value.1);
        }
      }
    }
    return Err(Unreadable);
  }

  /** Part after part, each written when it is there. False as soon as one answer
      was the whole artifact. */
  method DownloadRanges(urls: OutputUrls, a: Artifact, server: nat -> Server, answers: nat -> Option<Output>, len: nat,
                        part: nat, received: Received, ghost content: Bytes)
    returns (r: Result<bool>)
    requires urls.Valid() && received.Valid() && received.body == [] && part > 0
    modifies urls, received
    ensures urls.Valid() && received.Valid()
    ensures |received.body| <= len && (r == Ok(true) ==> |received.body| == len)
    ensures (forall k :: HonestServer(server(k), content)) && len == |content| ==>
      received.body <= content && (r == Ok(true) ==> received.body == content)
  {
    hide HonestServer, Parts;
    PartsTile(len, part);
    var parts := Parts(len, part);
    ghost var honest := (forall k :: HonestServer(server(k), content)) && len == |content|;
    for i := 0 to |parts|
      invariant urls.Valid() && received.Valid()
      invariant |received.body| == if i == 0 then 0 else parts[i - 1].1
      invariant honest ==> received.body == content[..|received.body|]
    {
      var start, end := parts[i].0, parts[i].1;
      assert i > 0 ==> parts[i - 1].1 == start;
      var bytes := DownloadRange(urls, a, server(i), answers, start, end, content);
      if bytes.Err? {
        return Err(bytes.error);
      }
      if bytes.value.None? {
        return Ok(false);
      }
      received.Write(bytes.value.value);
    }
    return Ok(true);
  }

  /** Ask for what is still to come, again and again: after a cut from where it ended,
      and with a new address after a refusal. */
  method DownloadWhole(urls: OutputUrls, a: Artifact, server: Server, answers: nat -> Option<Output>,
                       received: Received, ghost content: Bytes)
    returns (r: Result<()>)
    requires urls.Valid() && received.Valid() && Within(received.len, a)
    modifies urls, received
    ensures urls.Valid() && received.Valid()
    ensures HonestServer(server, content) && Promised(a, content) && old(received.body) <= content ==>
      received.body <= content && (r.Ok? ==> received.body == content)
  {
    hide HonestServer, UrlOf, Honest, Concat;
    ghost var honest := HonestServer(server, content) && Promised(a, content) && received.body <= content;
    var generation: nat, url: Option<Url> := urls.generation, UrlOf(urls.current, a.slot);
    var attempt := 1;
    while attempt <= MAX_ATTEMPTS
      invariant 1 <= attempt <= MAX_ATTEMPTS
      invariant urls.Valid() && generation <= urls.generation && received.Valid() && Within(received.len, a)
      invariant honest ==> received.body <= content
    {
      if received.len > 0 && Some(received.len) == a.len {
        return Ok(());
      }
      var reply := server(attempt, received.len, None);
      if honest { HonestReply(server, content, attempt, received.len); }
      var outcome := received.Attempt(a, url.Some?, reply, content);
      if outcome.Complete? {
        return Ok(());
      }
      if outcome.Permanent? || attempt == MAX_ATTEMPTS {
        return Err(Unreadable);
      }
      if outcome.Refresh? {
        var renewed := urls.RefreshUrl(a.slot, generation, answers(attempt));
        if renewed.Err? {
          return Err(renewed.error);
        }
        generation, url := renewed.value.0, Some(renewed.value.1);
      }
      attempt := attempt + 1;
    }
    return Ok(());
  }

  /** Download an artifact: in parts when it is long and goes to a file, or else
      whole, resuming after a cut. What is returned has the promised length and
      hash; from an honest server it is the artifact, and what is received is
      always its first bytes. */
  method Download(env: Env, urls: OutputUrls, a: Artifact, server: Server, ranges: nat -> Server,
                  answers: nat -> Option<Output>, toFile: bool, part: nat, ghost content: Bytes)
    returns (r: Result<Bytes>, ghost got: Bytes)
    requires urls.Valid() && part > 0
    modifies urls
    ensures urls.Valid()
    ensures r.Ok? ==> env.hash(r.value) == a.hash && (a.len.Some? ==> |r.value| == a.len.value)
    ensures HonestServer(server, content) && (forall k :: HonestServer(ranges(k), content)) && Promised(a, content) ==>
      got <= content && (r.Ok? ==> r.value == content)
  {
    hide HonestServer, Within, UrlOf, Honest, Concat;
    var received := new Received();
    NothingIsWithin(received, a);
    ghost var honest := HonestServer(server, content) && (forall k :: HonestServer(ranges(k), content))
      && Promised(a, content);
    if toFile && a.len.Some? && a.len.value >= part * 4 {
      var whole := DownloadRanges(urls, a, ranges, answers, a.len.value, part, received, content);
      if whole.Err? {
        return Err(whole.error), received.body;
      }
      if whole.value {
        r := received.Finish(env, a);
        return r, received.body;
      }
      received.Restart();
      NothingIsWithin(received, a);
    }
    var whole := DownloadWhole(urls, a, server, answers, received, content);
    if whole.Err? {
      return Err(whole.error), received.body;
    }
    r := received.Finish(env, a);
    return r, received.body;
  }

  lemma NothingIsWithin(received: Received, a: Artifact)
    requires received.Valid() && received.body == []
    ensures Within(received.len, a)
  {}

  lemma HonestReply(server: Server, content: Bytes, n: nat, offset: nat)
    requires HonestServer(server, content)
    ensures Honest(server(n, offset, None), content)
  {}
}
