/** The response recorder of the idempotency middleware: what the first client gets while a response is being
    recorded, and what later clients get when it is replayed. */
module Recorder {
  import opened Wrappers
  import Sequences

  type Bytes = string

  /** Header values by canonical name. */
  type Header = map<string, seq<string>>

  function Values(h: Header, name: string): seq<string> {
    if name in h then h[name] else []
  }

  /** http.Header.Add. */
  function Added(h: Header, name: string, value: string): Header {
    h[name := Values(h, name) + [value]]
  }

  /** The values of h after those of `outer`, name by name and in their order. */
  function Merged(outer: Header, h: Header): Header {
    map name | name in outer.Keys + h.Keys && (name in outer || h[name] != []) :: Values(outer, name) + Values(h, name)
  }

  datatype Sent = Sent(code: int, headers: Header)

  /** What a client receives in the end. */
  datatype Received = Received(code: int, headers: Header, body: Bytes)

  /** The HTTP server's own response writer. The first WriteHeader or Write fixes status and headers. */
  class Client {
    var headers: Header
    var sent: Option<Sent>
    var body: Bytes

    constructor (outer: Header)
      ensures headers == outer && sent == None && body == ""
    {
      headers, sent, body := outer, None, "";
    }

    method Add(name: string, value: string)
      modifies this`headers
      ensures headers == Added(old(headers), name, value)
    {
      headers := Added(headers, name, value);
    }

    method WriteHeader(code: int)
      modifies this`sent
      ensures sent == if old(sent).Some? then old(sent) else Some(Sent(code, headers))
    {
      if sent.None? {
        sent := Some(Sent(code, headers));
      }
    }

    method Write(data: Bytes)
      modifies this`sent, this`body
      ensures sent == if old(sent).Some? then old(sent) else Some(Sent(200, headers))
      ensures body == old(body) + data
    {
      if sent.None? {
        WriteHeader(200);
      }
      body := body + data;
    }

    /** A response nobody committed goes out with status 200 and the headers set by then. */
    function Result(): Received
      reads this
    {
      match sent
      case Some(s) => Received(s.code, s.headers, body)
      case None => Received(200, headers, body)
    }
  }

  /** h with more values of one name. */
  function WithValues(h: Header, name: string, values: seq<string>): Header {
    if values == [] then h else h[name := Values(h, name) + values]
  }

  lemma AddedToValues(h: Header, name: string, values: seq<string>, value: string)
    ensures Added(WithValues(h, name, values), name, value) == WithValues(h, name, values + [value])
  {
    assert Values(h, name) + values + [value] == Values(h, name) + (values + [value]);
    if values == [] {
      assert values + [value] == [value];
    }
  }

  function Part(h: Header, names: set<string>): Header {
    map name | name in h && name in names :: h[name]
  }

  lemma OneMoreNameAt(outer: Header, h: Header, names: set<string>, name: string, k: string)
    requires name in h && name !in names
    ensures var a, b := WithValues(Merged(outer, Part(h, names)), name, h[name]), Merged(outer, Part(h, names + {name}));
      (k in a <==> k in b) && (k in a ==> a[k] == b[k])
  {
    if k != name {
      assert Values(Part(h, names), k) == Values(Part(h, names + {name}), k);
    } else {
      assert Values(Part(h, names), name) == [];
      assert Values(outer, name) + [] == Values(outer, name);
    }
  }

  lemma OneMoreName(outer: Header, h: Header, names: set<string>, name: string)
    requires name in h && name !in names
    ensures WithValues(Merged(outer, Part(h, names)), name, h[name]) == Merged(outer, Part(h, names + {name}))
  {
    hide *;
    var a, b := WithValues(Merged(outer, Part(h, names)), name, h[name]), Merged(outer, Part(h, names + {name}));
    forall k ensures (k in a <==> k in b) && (k in a ==> a[k] == b[k]) {
      OneMoreNameAt(outer, h, names, name, k);
    }
    assert a.Keys == b.Keys;
  }

  lemma WholeAndEmptyPart(h: Header)
    ensures Part(h, {}) == map[] && Part(h, h.Keys) == h && Part(h, h.Keys - h.Keys) == map[]
  {
    assert h.Keys - h.Keys == {};
  }

  lemma MergedWithNone(outer: Header)
    ensures Merged(outer, map[]) == outer
  {
    var m := Merged(outer, map[]);
    assert m.Keys == outer.Keys;
    forall k | k in m ensures m[k] == outer[k] {
      assert Values(outer, k) + [] == outer[k];
    }
  }

  lemma DoneGrows(keys: set<string>, rest: set<string>, key: string)
    requires key in rest && rest <= keys
    ensures keys - (rest - {key}) == keys - rest + {key} && key !in keys - rest
  {
  }

  /** The inner loop: the values of one name, in order. */
  method AddValues(w: Client, name: string, values: seq<string>)
    modifies w`headers
    ensures w.headers == WithValues(old(w.headers), name, values)
  {
    ghost var before := w.headers;
    for i := 0 to |values|
      invariant w.headers == WithValues(before, name, values[..i])
    {
      AddedToValues(before, name, values[..i], values[i]);
      assert values[..i + 1] == values[..i] + [values[i]];
      w.Add(name, values[i]);
    }
    assert values[..|values|] == values;
  }

  /** The outer loop over a header map: names in any order. */
  method AddAll(w: Client, h: Header)
    modifies w`headers
    ensures w.headers == Merged(old(w.headers), h)
  {
    ghost var outer := w.headers;
    var rest := h.Keys;
    WholeAndEmptyPart(h);
    MergedWithNone(outer);
    hide Merged, Part, WithValues;
    while rest != {}
      invariant rest <= h.Keys
      invariant w.headers == Merged(outer, Part(h, h.Keys - rest))
      decreases rest
    {
      var key :| key in rest;
      AddValues(w, key, h[key]);
      OneMoreName(outer, h, h.Keys - rest, key);
      DoneGrows(h.Keys, rest, key);
      rest := rest - {key};
    }
    assert h.Keys - {} == h.Keys;
  }

  /** What is stored for a key: a response as the recorder's fields hold it. */
  datatype Recorded = Recorded(code: int, body: Bytes, headers: Header)

  /** The body is whatever bytes the handler passed last, not a copy of them. */
  class ResponseRecorder {
    const writer: Client
    var code: int
    var body: array<char>
    var headers: Header

    constructor (writer: Client)
      ensures this.writer == writer && code == 0 && body[..] == "" && fresh(body) && headers == map[]
    {
      this.writer, code, headers := writer, 0, map[];
      body := new char[0];
    }

    method WriteHeader(status: int)
      modifies this`code, writer
      ensures code == status
      ensures writer.headers == Merged(old(writer.headers), headers)
      ensures writer.sent == if old(writer.sent).Some? then old(writer.sent) else Some(Sent(status, writer.headers))
      ensures writer.body == old(writer.body)
    {
      code := status;
      AddAll(writer, headers);
      writer.WriteHeader(status);
    }

    /** The client gets the bytes as they are now; the recorder keeps the handler's own buffer. */
    method Write(data: array<char>)
      modifies this`body, writer
      ensures body == data
      ensures writer.sent == if old(writer.sent).Some? then old(writer.sent) else Some(Sent(200, writer.headers))
      ensures writer.headers == old(writer.headers) && writer.body == old(writer.body) + old(data[..])
    {
      body := data;
      writer.Write(data[..]);
    }

    /** What json.Marshal sees of the recorder. */
    function Recording(): Recorded
      reads this, body
    {
      Recorded(code, body[..], headers)
    }
  }

  // ----- Handlers

  /** What a handler does to its response. Refill stands for the handler changing the bytes it passed to its last
      Write, as one does that reads the next part of a file into the same buffer; their number stays. */
  datatype Call =
    | AddHeader(name: string, value: string)
    | SetHeader(name: string, value: string)
    | DelHeader(name: string)
    | WriteHeader(code: int)
    | Write(data: Bytes)
    | Refill(data: Bytes)

  /** The handler's calls so far: its headers, the status and headers at the first commit, the chunks written, and
      what the buffer of the last chunk holds now. */
  datatype Page = Page(headers: Header, sent: Option<Sent>, chunks: seq<Bytes>, kept: Bytes)

  function Commit(p: Page, code: int): Page {
    if p.sent.Some? then p else p.(sent := Some(Sent(code, p.headers)))
  }

  function Called(p: Page, c: Call): Page {
    match c
    case AddHeader(name, value) => p.(headers := Added(p.headers, name, value))
    case SetHeader(name, value) => p.(headers := p.headers[name := [value]])
    case DelHeader(name) => p.(headers := p.headers - {name})
    case WriteHeader(code) => Commit(p, code)
    case Write(data) => Commit(p, 200).(chunks := p.chunks + [data], kept := data)
    case Refill(data) => if |data| == |p.kept| then p.(kept := data) else p
  }

  function PageOf(calls: seq<Call>): Page {
    if calls == [] then Page(map[], None, [], "") else Called(PageOf(calls[..|calls| - 1]), calls[|calls| - 1])
  }

  function Concat(chunks: seq<Bytes>): Bytes {
    if chunks == [] then "" else Concat(chunks[..|chunks| - 1]) + chunks[|chunks| - 1]
  }

  function LastChunk(chunks: seq<Bytes>): Bytes {
    if chunks == [] then "" else chunks[|chunks| - 1]
  }

  /** What the first client gets, whose response already had headers `outer`. */
  function FirstResponse(outer: Header, p: Page): Received {
    match p.sent
    case Some(s) => Received(s.code, Merged(outer, s.headers), Concat(p.chunks))
    case None => Received(200, outer, "")
  }

  function RecordedFrom(p: Page): Recorded {
    Recorded(if p.sent.Some? then p.sent.value.code else 0, p.kept, p.headers)
  }

  /** What a later client gets from a recording. */
  function ReplayedResponse(outer: Header, r: Recorded): Received {
    Received(200, Merged(outer, r.headers), r.body)
  }

  method NewBuffer(data: Bytes) returns (buffer: array<char>)
    ensures fresh(buffer) && buffer[..] == data
  {
    buffer := new char[|data|](i requires 0 <= i < |data| => data[i]);
  }

  method Fill(buffer: array<char>, data: Bytes)
    requires |data| == buffer.Length
    modifies buffer
    ensures buffer[..] == data
  {
    for i := 0 to |data|
      invariant buffer[..i] == data[..i]
    {
      buffer[i] := data[i];
      assert data[..i + 1] == data[..i] + [data[i]];
    }
    assert buffer[..] == buffer[..|data|] && data == data[..|data|];
  }

  /** Client, recorder and the handler's calls so far agree. */
  ghost predicate Mirrors(client: Client, recorder: ResponseRecorder, outer: Header, p: Page)
    reads client, recorder, recorder.body
  {
    && recorder.writer == client
    && recorder.headers == p.headers && recorder.body[..] == p.kept
    && recorder.code == RecordedFrom(p).code
    && client.body == Concat(p.chunks)
    && (p.sent.None? ==> client.sent == None && client.headers == outer && p.chunks == [])
    && (p.sent.Some? ==> client.sent == Some(Sent(p.sent.value.code, Merged(outer, p.sent.value.headers))))
  }

  lemma ConcatSnoc(chunks: seq<Bytes>, data: Bytes)
    ensures Concat(chunks + [data]) == Concat(chunks) + data
  {
    Sequences.Snoc(chunks, data);
  }

  /** One call of a handler on echo's response, which wraps the recorder and lets only the first status through. */
  method Perform(call: Call, client: Client, recorder: ResponseRecorder, outer: Header, ghost p: Page, committed: bool)
    returns (after: bool)
    requires Mirrors(client, recorder, outer, p) && committed == p.sent.Some?
    modifies client, recorder, recorder.body
    ensures Mirrors(client, recorder, outer, Called(p, call)) && after == Called(p, call).sent.Some?
    ensures recorder.body == old(recorder.body) || fresh(recorder.body)
  {
    hide Merged, Concat;
    after := committed;
    match call {
      case AddHeader(name, value) =>
        recorder.headers := Added(recorder.headers, name, value);
      case SetHeader(name, value) =>
        recorder.headers := recorder.headers[name := [value]];
      case DelHeader(name) =>
        recorder.headers := recorder.headers - {name};
      case WriteHeader(code) =>
        if !committed {
          recorder.WriteHeader(code);
          after := true;
        }
      case Write(data) =>
        if !committed {
          recorder.WriteHeader(200);
          after := true;
        }
        ConcatSnoc(p.chunks, data);
        var buffer := NewBuffer(data);
        recorder.Write(buffer);
      case Refill(data) =>
        if |data| == recorder.body.Length {
          Fill(recorder.body, data);
        }
    }
  }

  /** A handler running from beginning to end. */
  method RunHandler(outer: Header, calls: seq<Call>) returns (received: Received, recorded: Recorded)
    ensures received == FirstResponse(outer, PageOf(calls))
    ensures recorded == RecordedFrom(PageOf(calls))
  {
    var client := new Client(outer);
    var recorder := new ResponseRecorder(client);
    var committed := false;
    assert Concat([]) == "";
    hide Concat, PageOf;
    NoCalls();
    for i := 0 to |calls|
      invariant fresh(recorder.body)
      invariant Mirrors(client, recorder, outer, PageOf(calls[..i])) && committed == PageOf(calls[..i]).sent.Some?
    {
      hide Mirrors;
      assert calls[..i + 1] == calls[..i] + [calls[i]];
      PageOfSnoc(calls[..i], calls[i]);
      committed := Perform(calls[i], client, recorder, outer, PageOf(calls[..i]), committed);
    }
    assert calls[..|calls|] == calls;
    received := client.Result();
    recorded := recorder.Recording();
    NothingSentNothingWritten(calls);
  }

  lemma NoCalls()
    ensures PageOf([]) == Page(map[], None, [], "")
  {
  }

  lemma NothingSentNothingWritten(calls: seq<Call>)
    ensures PageOf(calls).sent.None? ==> Concat(PageOf(calls).chunks) == ""
  {
    PagesHaveNoEmptyNames(calls);
  }

  /** The replay: headers, then body, then status. */
  method ReplayTo(outer: Header, recorded: Recorded) returns (received: Received)
    ensures received == ReplayedResponse(outer, recorded)
  {
    var client := new Client(outer);
    AddAll(client, recorded.headers);
    client.Write(recorded.body);
    client.WriteHeader(recorded.code);
    received := client.Result();
  }

  // ----- When a replay is the response that was recorded

  /** Header values as handlers set them: every name that is present has a value. */
  ghost predicate NoEmptyNames(h: Header) {
    forall name | name in h :: h[name] != []
  }

  lemma {:induction false} PagesHaveNoEmptyNames(calls: seq<Call>)
    ensures NoEmptyNames(PageOf(calls).headers)
    ensures PageOf(calls).sent.Some? ==> NoEmptyNames(PageOf(calls).sent.value.headers)
    ensures PageOf(calls).sent.None? ==> PageOf(calls).chunks == []
    ensures |PageOf(calls).kept| == |LastChunk(PageOf(calls).chunks)|
    decreases |calls|
  {
    if calls != [] {
      PagesHaveNoEmptyNames(calls[..|calls| - 1]);
    }
  }

  /** Headers recorded under the same outer headers can be told apart. */
  lemma MergedTellsApart(outer: Header, h: Header, g: Header)
    requires NoEmptyNames(h) && NoEmptyNames(g) && Merged(outer, h) == Merged(outer, g)
    ensures h == g
  {
    forall name ensures Values(h, name) == Values(g, name) {
      assert name in Merged(outer, h) <==> name in Merged(outer, g);
      if name in Merged(outer, h) {
        assert Values(outer, name) + Values(h, name) == Values(outer, name) + Values(g, name);
        assert (Values(outer, name) + Values(h, name))[|Values(outer, name)|..] == Values(h, name);
        assert (Values(outer, name) + Values(g, name))[|Values(outer, name)|..] == Values(g, name);
      }
    }
    forall name ensures name in h <==> name in g {
      assert Values(h, name) == Values(g, name);
    }
    forall name | name in h ensures h[name] == g[name] {
      assert Values(h, name) == Values(g, name);
    }
  }

  /** What a handler must have done for its replay to be its response: a committed response has status 200, no
      header was changed after the commit, all of the body is in the last chunk, and the buffer of that chunk was
      not changed after its Write; one that was never committed set no header. */
  ghost predicate Replayable(p: Page) {
    match p.sent
    case Some(s) =>
      && s.code == 200 && s.headers == p.headers
      && Concat(p.chunks) == LastChunk(p.chunks) && p.kept == LastChunk(p.chunks)
    case None => p.headers == map[]
  }

  lemma LastIsSuffix(chunks: seq<Bytes>)
    ensures |LastChunk(chunks)| <= |Concat(chunks)|
    ensures Concat(chunks)[|Concat(chunks)| - |LastChunk(chunks)|..] == LastChunk(chunks)
  {
  }

  /** For every handler: a later client with the same outer headers gets exactly the first client's response if,
      and only if, the handler kept to Replayable. */
  lemma {:induction false} ReplayFaithful(outer: Header, calls: seq<Call>)
    ensures ReplayedResponse(outer, RecordedFrom(PageOf(calls))) == FirstResponse(outer, PageOf(calls)) <==>
      Replayable(PageOf(calls))
  {
    var p := PageOf(calls);
    PagesHaveNoEmptyNames(calls);
    MergedWithNone(outer);
    var late := Merged(outer, p.headers);
    match p.sent
    case Some(s) =>
      LastIsSuffix(p.chunks);
      if late == Merged(outer, s.headers) {
        MergedTellsApart(outer, p.headers, s.headers);
      }
    case None =>
      if late == outer {
        MergedTellsApart(outer, p.headers, map[]);
      }
  }

  /** The usual handler sets headers, then a status, then the body in one piece. Its replay has the same headers,
      value by value, and the same body, for any status; the status itself is replayed only if it is 200. */
  lemma {:induction false} OneWriteHandler(outer: Header, setup: seq<Call>, code: int, data: Bytes)
    requires forall i | 0 <= i < |setup| :: !setup[i].WriteHeader? && !setup[i].Write?
    ensures var p := PageOf(setup + [WriteHeader(code)] + [Write(data)]);
      var first, later := FirstResponse(outer, p), ReplayedResponse(outer, RecordedFrom(p));
      && first == Received(code, Merged(outer, PageOf(setup).headers), data)
      && later.headers == first.headers && later.body == first.body
      && (later == first <==> code == 200)
  {
    hide *;
    SetupCommitsNothing(setup);
    PageOfSnoc(setup, WriteHeader(code));
    PageOfSnoc(setup + [WriteHeader(code)], Write(data));
    OneWritePage(outer, PageOf(setup).headers, code, data);
    assert PageOf(setup) == Page(PageOf(setup).headers, None, [], "");
  }

  lemma OneWritePage(outer: Header, h: Header, code: int, data: Bytes)
    ensures var p := Page(h, Some(Sent(code, h)), [data], data);
      && FirstResponse(outer, p) == Received(code, Merged(outer, h), data)
      && ReplayedResponse(outer, RecordedFrom(p)) == Received(200, Merged(outer, h), data)
      && Called(Called(Page(h, None, [], ""), WriteHeader(code)), Write(data)) == p
  {
    hide Merged;
    assert [data][..0] == [] && Concat([data]) == "" + data;
    assert [] + [data] == [data];
  }

  lemma PageOfSnoc(calls: seq<Call>, c: Call)
    ensures PageOf(calls + [c]) == Called(PageOf(calls), c)
  {
    assert (calls + [c])[..|calls|] == calls;
  }

  lemma {:induction false} SetupCommitsNothing(setup: seq<Call>)
    requires forall i | 0 <= i < |setup| :: !setup[i].WriteHeader? && !setup[i].Write?
    ensures PageOf(setup).sent == None && PageOf(setup).chunks == [] && PageOf(setup).kept == ""
    decreases |setup|
  {
    if setup != [] {
      SetupCommitsNothing(setup[..|setup| - 1]);
    }
  }

  // ----- Headers and statuses, in figures

  /** The values that the calls add to a header, in order. */
  function AddedIn(calls: seq<Call>, name: string): seq<string> {
    if calls == [] then []
    else
      var c := calls[|calls| - 1];
      AddedIn(calls[..|calls| - 1], name) + if c.AddHeader? && c.name == name then [c.value] else []
  }

  lemma {:induction false} HeadersAreAdded(calls: seq<Call>, name: string)
    requires forall i | 0 <= i < |calls| :: !calls[i].SetHeader? && !calls[i].DelHeader?
    ensures Values(PageOf(calls).headers, name) == AddedIn(calls, name)
    decreases |calls|
  {
    if calls != [] {
      HeadersAreAdded(calls[..|calls| - 1], name);
    }
  }

  /** A handler that adds headers, and then writes its body in one piece without a status: the first client gets status
      200, the values its response already had for each name and the added ones after them in order, and the body;
      and the replay is the same. */
  lemma {:induction false} PlainHandler(outer: Header, setup: seq<Call>, data: Bytes, name: string)
    requires forall i | 0 <= i < |setup| :: setup[i].AddHeader?
    ensures var p := PageOf(setup + [Write(data)]);
      var first := FirstResponse(outer, p);
      && first.code == 200 && first.body == data
      && Values(first.headers, name) == Values(outer, name) + AddedIn(setup, name)
      && ReplayedResponse(outer, RecordedFrom(p)) == first
  {
    SetupCommitsNothing(setup);
    HeadersAreAdded(setup, name);
    PageOfSnoc(setup, Write(data));
    var h := PageOf(setup).headers;
    MergedValues(outer, h, name);
    hide PageOf, Merged, AddedIn;
    OneChunk(data);
    assert PageOf(setup + [Write(data)]) == Page(h, Some(Sent(200, h)), [data], data);
  }

  lemma OneChunk(data: Bytes)
    ensures [] + [data] == [data] && Concat([data]) == data
  {
    Sequences.One(data);
    assert Concat([]) == "" && "" + data == data;
  }

  lemma MergedValues(outer: Header, h: Header, name: string)
    ensures Values(Merged(outer, h), name) == Values(outer, name) + Values(h, name)
  {
  }

  /** A header that is set or deleted after others were added has only what comes from then on. */
  lemma {:induction false} SetAndDelete(calls: seq<Call>, name: string, value: string, more: seq<Call>)
    requires forall i | 0 <= i < |more| :: !more[i].SetHeader? && !more[i].DelHeader?
    ensures Values(PageOf(calls + [SetHeader(name, value)] + more).headers, name) == [value] + AddedIn(more, name)
    ensures Values(PageOf(calls + [DelHeader(name)] + more).headers, name) == AddedIn(more, name)
    decreases |more|
  {
    hide Commit;
    if more == [] {
      assert calls + [SetHeader(name, value)] + more == calls + [SetHeader(name, value)];
      assert calls + [DelHeader(name)] + more == calls + [DelHeader(name)];
      PageOfSnoc(calls, SetHeader(name, value));
      PageOfSnoc(calls, DelHeader(name));
    } else {
      var pre, last := more[..|more| - 1], more[|more| - 1];
      SetAndDelete(calls, name, value, pre);
      assert calls + [SetHeader(name, value)] + more == calls + [SetHeader(name, value)] + pre + [last];
      assert calls + [DelHeader(name)] + more == calls + [DelHeader(name)] + pre + [last];
      PageOfSnoc(calls + [SetHeader(name, value)] + pre, last);
      PageOfSnoc(calls + [DelHeader(name)] + pre, last);
      HeadersStep(PageOf(calls + [SetHeader(name, value)] + pre), last, name);
      HeadersStep(PageOf(calls + [DelHeader(name)] + pre), last, name);
      hide PageOf, Called;
      Sequences.Associates([value], AddedIn(pre, name), AddedIn(more, name)[|AddedIn(pre, name)|..]);
    }
  }

  lemma HeadersStep(p: Page, c: Call, name: string)
    requires !c.SetHeader? && !c.DelHeader?
    ensures Values(Called(p, c).headers, name) ==
      Values(p.headers, name) + if c.AddHeader? && c.name == name then [c.value] else []
  {
  }
}
