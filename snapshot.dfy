/**
  * One snapshot of the quotes (realtime_stock_price.py, `fetch_once` and
  * `parse_json_response`): the codes are paired with their venues and cut
  * into requests of at most 50; each request goes through `http_get`; a
  * request with no response, a body that does not decode, or an empty JSON
  * object is skipped; otherwise every entry of `msgArray` becomes a row and
  * a pause of `max(interval_sec, MIN_INTERVAL_SEC)` follows. The rows form a
  * table whose columns are always the 35 of the schema, in schema order.
  *
  * The network, the clock and the UTC offset are parameters; pauses are
  * returned as durations.
  */
module Snapshot {
  import opened Wrappers
  import opened ErrorLog
  import opened Batching
  import opened Quotes
  import opened Http

  const MinIntervalSec: real := 0.2

  // ---------------------------------------------------------------------
  // Responses
  // ---------------------------------------------------------------------

  /**
    * A JSON object as far as `fetch_once` looks at it: its `msgArray`, if
    * the key is there, and how many other keys it has.
    */
  datatype Document = Document(msgArray: Option<seq<Item>>, otherKeys: nat)

  /** A response body: JSON text that decodes to an object, or text that does not decode, with the decoder's message. */
  datatype Body = Json(doc: Document) | Unparsable(reason: string)

  /** `not data`: only the empty object is false. */
  predicate Falsy(doc: Document) {
    doc.msgArray.None? && doc.otherKeys == 0
  }

  /** `data.get("msgArray", [])`. */
  function Items(doc: Document): (items: seq<Item>)
    ensures doc.msgArray.None? ==> items == []
    ensures doc.msgArray.Some? ==> items == doc.msgArray.value
  {
    if doc.msgArray.Some? then doc.msgArray.value else []
  }

  /** The record a body that does not decode leaves (no context). */
  function ParseFailure(reason: string): LogEntry {
    LogEntry("error", "PARSE", "json", "JSON decode failed: " + reason, None)
  }

  /** `parse_json_response`: the decoded object, or `None` and one PARSE record. */
  method ParseJsonResponse(log: ErrorLogger, body: Body, now: string) returns (data: Option<Document>)
    modifies log
    ensures body.Json? ==> data == Some(body.doc) && log.records == old(log.records)
    ensures body.Unparsable? ==> data == None && log.records == old(log.records) + [FormatRecord(now, ParseFailure(body.reason))]
  {
    match body
    case Json(doc) =>
      data := Some(doc);
    case Unparsable(reason) =>
      log.Log(ParseFailure(reason), now);
      data := None;
  }

  // ---------------------------------------------------------------------
  // Requests
  // ---------------------------------------------------------------------

  /** The query of one request: `{"ex_ch": ..., "json": "1", "delay": "0", "lang": "zh_tw"}`. */
  datatype Params = Params(exCh: string, json: string, delay: string, lang: string)

  function RequestParams(batch: seq<Listing>): (p: Params)
    ensures p.exCh == BuildExCh(batch)
  {
    Params(BuildExCh(batch), "1", "0", "zh_tw")
  }

  /** `chunked(pairs, MAX_CODES_PER_REQUEST)`: the requests, in order. */
  function Batches(codes: seq<string>): seq<seq<Listing>> {
    Chunked(Pairs(codes), MaxCodesPerRequest)
  }

  /**
    * The network: what each attempt of request number `b` with these
    * parameters brings back.
    */
  type Network = (nat, Params) -> Replies<Body>

  function Ask(net: Network, b: nat, p: Params): Replies<Body> {
    net(b, p)
  }

  /** `max(interval_sec, MIN_INTERVAL_SEC)`. */
  function Pause(interval: real): (p: real)
    ensures p >= interval && p >= MinIntervalSec
    ensures p == interval || p == MinIntervalSec
  {
    if interval >= MinIntervalSec then interval else MinIntervalSec
  }

  // ---------------------------------------------------------------------
  // What the requests bring in
  // ---------------------------------------------------------------------

  /** The entries a stretch of requests yields, the records it leaves and the pauses it takes, each in order. */
  datatype Harvest = Harvest(items: seq<Item>, entries: seq<LogEntry>, sleeps: seq<real>)

  function Then(h: Harvest, g: Harvest): Harvest {
    Harvest(h.items + g.items, h.entries + g.entries, h.sleeps + g.sleeps)
  }

  /** One pass of the batch loop, given the answers to its attempts. */
  function BatchHarvest(replies: Replies<Body>, interval: real): Harvest {
    var r: Retrieval<Body> := Retry(replies, 0);
    match r.body
    case None => Harvest([], r.failures, r.sleeps)
    case Some(Unparsable(reason)) => Harvest([], r.failures + [ParseFailure(reason)], r.sleeps)
    case Some(Json(doc)) =>
      if Falsy(doc) then Harvest([], r.failures, r.sleeps)
      else Harvest(Items(doc), r.failures, r.sleeps + [Pause(interval)])
  }

  /** The first `n` passes of the batch loop. */
  function Gather(net: Network, batches: seq<seq<Listing>>, interval: real, n: nat): Harvest
    requires n <= |batches|
  {
    if n == 0 then Harvest([], [], [])
    else Then(Gather(net, batches, interval, n - 1),
              BatchHarvest(Ask(net, n - 1, RequestParams(batches[n - 1])), interval))
  }

  /** Everything one snapshot brings in. */
  function Fetched(net: Network, codes: seq<string>, interval: real): Harvest {
    Gather(net, Batches(codes), interval, |Batches(codes)|)
  }

  // ---------------------------------------------------------------------
  // The table
  // ---------------------------------------------------------------------

  /** `f` applied to each element, in order. */
  function Each<A, B>(f: A -> B, xs: seq<A>): (ys: seq<B>)
    ensures |ys| == |xs|
    ensures forall i :: 0 <= i < |xs| ==> ys[i] == f(xs[i])
  {
    seq(|xs|, i requires 0 <= i < |xs| => f(xs[i]))
  }

  lemma EachAppend<A, B>(f: A -> B, xs: seq<A>, j: nat)
    requires j < |xs|
    ensures Each(f, xs[..j]) + [f(xs[j])] == Each(f, xs[..j + 1])
  {
  }

  lemma EachConcat<A, B>(f: A -> B, xs: seq<A>, ys: seq<A>)
    ensures Each(f, xs) + Each(f, ys) == Each(f, xs + ys)
  {
  }

  /** The rows `parse_msg_item` makes of the entries, in order. */
  function Rows(items: seq<Item>, offset: string): (rows: seq<Dict<Column, Cell>>)
    ensures |rows| == |items|
    ensures forall i :: 0 <= i < |items| ==> rows[i] == MsgRow(items[i], offset)
  {
    Each((item: Item) => MsgRow(item, offset), items)
  }

  /** A table: its columns in order and its rows. */
  datatype Frame = Frame(columns: seq<Column>, rows: seq<Dict<Column, Cell>>)

  /** The columns `pd.DataFrame(rows)` takes: every key of the rows, in order of first appearance. */
  function KeyUnion(rows: seq<Dict<Column, Cell>>): (cols: seq<Column>)
    ensures forall i, c :: 0 <= i < |rows| && c in rows[i].keys ==> c in cols
  {
    if rows == [] then [] else AddKeys(KeyUnion(rows[..|rows| - 1]), rows[|rows| - 1].keys)
  }

  /** `cols` followed by those of `keys` not seen yet. */
  function AddKeys(cols: seq<Column>, keys: seq<Column>): (r: seq<Column>)
    ensures forall c :: c in r <==> c in cols || c in keys
    decreases |keys|
  {
    if keys == [] then cols
    else if keys[0] in cols then AddKeys(cols, keys[1..])
    else AddKeys(cols + [keys[0]], keys[1..])
  }

  /** `df[c] = None` on a table without column `c`. */
  function SetColumn(rows: seq<Dict<Column, Cell>>, c: Column): (out: seq<Dict<Column, Cell>>)
    ensures |out| == |rows|
    ensures forall i :: 0 <= i < |rows| ==> out[i] == Assign(rows[i], c, Null)
  {
    seq(|rows|, i requires 0 <= i < |rows| => Assign(rows[i], c, Null))
  }

  /** Every row holds exactly the schema's columns. */
  predicate Schematic(rows: seq<Dict<Column, Cell>>) {
    forall i :: 0 <= i < |rows| ==> rows[i].keys == Columns()
  }

  /**
    * The end of `fetch_once`: build the table, add each schema column it
    * lacks as a column of `None`, and select the schema's columns unless the
    * table is empty. Either way the columns are the schema's, in order; rows
    * that already hold every column are left as they are.
    */
  method Assemble(rows: seq<Dict<Column, Cell>>) returns (frame: Frame)
    ensures frame.columns == Columns()
    ensures Schematic(rows) ==> frame.rows == rows
  {
    var cols := KeyUnion(rows);
    var out := rows;
    var schema := Columns();
    for k := 0 to |schema|
      invariant rows == [] ==> cols == schema[..k] && out == []
      invariant rows != [] && Schematic(rows) ==> cols == KeyUnion(rows) && out == rows
      invariant |out| == |rows|
    {
      var c := schema[k];
      if rows == [] {
        ColumnFresh(k);
      } else if Schematic(rows) {
        SchemaKept(rows, c);
      }
      if c !in cols {
        cols := cols + [c];
        out := SetColumn(out, c);
      }
      assert schema[..k + 1] == schema[..k] + [c];
    }
    assert schema[..|schema|] == schema;
    if out != [] {
      frame := Frame(schema, out);
    } else {
      frame := Frame(cols, out);
    }
  }

  /** A table built from rows that hold the whole schema already has every schema column. */
  lemma SchemaKept(rows: seq<Dict<Column, Cell>>, c: Column)
    requires rows != [] && Schematic(rows) && c in Columns()
    ensures c in KeyUnion(rows)
  {
    assert c in rows[0].keys;
  }

  lemma ColumnFresh(k: nat)
    requires k < |Columns()|
    ensures Columns()[k] !in Columns()[..k]
  {
    ColumnsDistinct();
  }

  /** The rows of a snapshot hold exactly the schema's columns. */
  lemma RowsSchematic(items: seq<Item>, offset: string)
    ensures Schematic(Rows(items, offset))
  {
    forall i | 0 <= i < |items|
      ensures Rows(items, offset)[i].keys == Columns()
    {
      MsgRowKeys(items[i], offset);
    }
  }

  // ---------------------------------------------------------------------
  // fetch_once
  // ---------------------------------------------------------------------

  lemma GatherStep(net: Network, batches: seq<seq<Listing>>, interval: real, b: nat)
    requires b < |batches|
    ensures Gather(net, batches, interval, b + 1)
      == Then(Gather(net, batches, interval, b), BatchHarvest(Ask(net, b, RequestParams(batches[b])), interval))
  {
  }

  /** The rows of one response: `parse_msg_item` on each entry of `msgArray`, in order. */
  method ParseItems(items: seq<Item>, offset: string) returns (rows: seq<Dict<Column, Cell>>)
    ensures rows == Rows(items, offset)
  {
    rows := [];
    assert items[..0] == [];
    for j := 0 to |items|
      invariant rows == Rows(items[..j], offset)
    {
      var row := ParseMsgItem(items[j], offset);
      EachAppend((item: Item) => MsgRow(item, offset), items, j);
      rows := rows + [row];
    }
    assert items[..|items|] == items;
  }

  /**
    * One pass of the batch loop of `fetch_once`: request the batch; with no
    * response, an undecodable body or an empty object, go on to the next
    * batch; otherwise turn each entry of `msgArray` into a row, in order, and
    * pause.
    */
  method FetchBatch(log: ErrorLogger, replies: Replies<Body>, interval: real, now: string, offset: string)
    returns (rows: seq<Dict<Column, Cell>>, sleeps: seq<real>)
    modifies log
    ensures rows == Rows(BatchHarvest(replies, interval).items, offset)
    ensures sleeps == BatchHarvest(replies, interval).sleeps
    ensures log.records == old(log.records) + FormatRecords(now, BatchHarvest(replies, interval).entries)
  {
    ghost var r: Retrieval<Body> := Retry(replies, 0);
    var resp, waited := HttpGet(log, replies, now);
    sleeps := waited;
    rows := [];
    if resp.None? {
      return;
    }
    var data := ParseJsonResponse(log, resp.value, now);
    if data.None? {
      FormatRecordsAppend(old(log.records), now, r.failures, ParseFailure(resp.value.reason));
      return;
    }
    if Falsy(data.value) {
      return;
    }
    rows := ParseItems(Items(data.value), offset);
    sleeps := sleeps + [Pause(interval)];
  }

  /** The batch loop of `fetch_once`: every batch in order, each one's rows after the last. */
  method FetchBatches(log: ErrorLogger, batches: seq<seq<Listing>>, interval: real, net: Network, now: string, offset: string)
    returns (rows: seq<Dict<Column, Cell>>, sleeps: seq<real>)
    modifies log
    ensures rows == Rows(Gather(net, batches, interval, |batches|).items, offset)
    ensures sleeps == Gather(net, batches, interval, |batches|).sleeps
    ensures log.records == old(log.records) + FormatRecords(now, Gather(net, batches, interval, |batches|).entries)
  {
    rows := [];
    sleeps := [];
    for b := 0 to |batches|
      invariant rows == Rows(Gather(net, batches, interval, b).items, offset)
      invariant sleeps == Gather(net, batches, interval, b).sleeps
      invariant log.records == old(log.records) + FormatRecords(now, Gather(net, batches, interval, b).entries)
    {
      ghost var before := Gather(net, batches, interval, b);
      var params := RequestParams(batches[b]);
      var replies := Ask(net, b, params);
      ghost var g := BatchHarvest(replies, interval);
      GatherStep(net, batches, interval, b);
      var batchRows, waited := FetchBatch(log, replies, interval, now, offset);
      FormatRecordsConcat(old(log.records), now, before.entries, g.entries);
      EachConcat((item: Item) => MsgRow(item, offset), before.items, g.items);
      rows := rows + batchRows;
      sleeps := sleeps + waited;
    }
  }

  /** `fetch_once`: the batches in order, then the table. */
  method FetchOnce(log: ErrorLogger, codes: seq<string>, interval: real, net: Network, now: string, offset: string)
    returns (frame: Frame, sleeps: seq<real>)
    modifies log
    ensures frame.columns == Columns()
    ensures frame.rows == Rows(Fetched(net, codes, interval).items, offset)
    ensures sleeps == Fetched(net, codes, interval).sleeps
    ensures log.records == old(log.records) + FormatRecords(now, Fetched(net, codes, interval).entries)
  {
    var batches := Chunked(Pairs(codes), MaxCodesPerRequest);
    var rows;
    rows, sleeps := FetchBatches(log, batches, interval, net, now, offset);
    RowsSchematic(Fetched(net, codes, interval).items, offset);
    frame := Assemble(rows);
  }

  // ---------------------------------------------------------------------
  // Properties of a snapshot
  // ---------------------------------------------------------------------

  /**
    * A skipped batch (no response, a body that does not decode, or an empty
    * object) adds no entries and no pause of its own: only what `http_get`
    * left, plus one PARSE record for a body that does not decode.
    */
  lemma BatchSkipped(replies: Replies<Body>, interval: real)
    requires var r: Retrieval<Body> := Retry(replies, 0);
      r.body.None? || r.body.value.Unparsable? || Falsy(r.body.value.doc)
    ensures BatchHarvest(replies, interval).items == []
    ensures BatchHarvest(replies, interval).sleeps == Retry(replies, 0).sleeps
    ensures var r: Retrieval<Body> := Retry(replies, 0);
      BatchHarvest(replies, interval).entries
        == r.failures + (if r.body.Some? && r.body.value.Unparsable? then [ParseFailure(r.body.value.reason)] else [])
  {
  }

  /**
    * A batch whose body decodes to a non-empty object yields the entries of
    * its `msgArray`, in order, and ends with a pause of at least 0.2 seconds.
    */
  lemma BatchParsed(replies: Replies<Body>, interval: real, doc: Document)
    requires Retry(replies, 0).body == Some(Json(doc)) && !Falsy(doc)
    ensures BatchHarvest(replies, interval).items == Items(doc)
    ensures BatchHarvest(replies, interval).entries == Retry(replies, 0).failures
    ensures BatchHarvest(replies, interval).sleeps == Retry(replies, 0).sleeps + [Pause(interval)]
    ensures BatchHarvest(replies, interval).sleeps[|BatchHarvest(replies, interval).sleeps| - 1] >= MinIntervalSec
  {
  }

  /** A batch pauses after `http_get` exactly when its body decoded to a non-empty object. */
  lemma BatchPause(replies: Replies<Body>, interval: real)
    ensures var r: Retrieval<Body> := Retry(replies, 0);
      (|BatchHarvest(replies, interval).sleeps| == |r.sleeps| + 1)
        <==> (r.body.Some? && r.body.value.Json? && !Falsy(r.body.value.doc))
    ensures var r: Retrieval<Body> := Retry(replies, 0);
      (|BatchHarvest(replies, interval).sleeps| == |r.sleeps| + 1)
        || (BatchHarvest(replies, interval).sleeps == r.sleeps)
  {
  }

  /** Rows come only from an attempt that answered 200 with a JSON object, and are that object's `msgArray`. */
  lemma RowsNeedAnswer(replies: Replies<Body>, interval: real)
    requires BatchHarvest(replies, interval).items != []
    ensures exists i :: (0 <= i < MaxRetries && IsOk(replies[i]) && replies[i].body.Json?
                         && BatchHarvest(replies, interval).items == Items(replies[i].body.doc))
  {
    RetrySucceeds(replies);
    var n := |Retry(replies, 0).failures|;
    assert IsOk(replies[n]) && Retry(replies, 0).body.value == replies[n].body;
  }

  /** Each of `h`'s entries, records and pauses is a prefix of `g`'s. */
  predicate Leads(h: Harvest, g: Harvest) {
    h.items <= g.items && h.entries <= g.entries && h.sleeps <= g.sleeps
  }

  lemma ThenLeads(h: Harvest, g: Harvest)
    ensures Leads(h, Then(h, g))
  {
    assert (h.items + g.items)[..|h.items|] == h.items;
    assert (h.entries + g.entries)[..|h.entries|] == h.entries;
    assert (h.sleeps + g.sleeps)[..|h.sleeps|] == h.sleeps;
  }

  lemma PrefixTrans<T>(a: seq<T>, b: seq<T>, c: seq<T>)
    requires a <= b && b <= c
    ensures a <= c
  {
    assert b == c[..|b|];
    assert a == b[..|a|] == c[..|b|][..|a|] == c[..|a|];
  }

  lemma LeadsTrans(h: Harvest, k: Harvest, g: Harvest)
    requires Leads(h, k) && Leads(k, g)
    ensures Leads(h, g)
  {
    PrefixTrans(h.items, k.items, g.items);
    PrefixTrans(h.entries, k.entries, g.entries);
    PrefixTrans(h.sleeps, k.sleeps, g.sleeps);
  }

  lemma GatherGrows(net: Network, batches: seq<seq<Listing>>, interval: real, b: nat)
    requires b < |batches|
    ensures Leads(Gather(net, batches, interval, b), Gather(net, batches, interval, b + 1))
  {
    GatherStep(net, batches, interval, b);
    ThenLeads(Gather(net, batches, interval, b), BatchHarvest(Ask(net, b, RequestParams(batches[b])), interval));
  }

  /** Later batches only append: the first `m` batches' entries, records and pauses lead those of the first `n`. */
  lemma {:induction false} GatherPrefix(net: Network, batches: seq<seq<Listing>>, interval: real, m: nat, n: nat)
    requires m <= n <= |batches|
    ensures Leads(Gather(net, batches, interval, m), Gather(net, batches, interval, n))
  {
    if m < n {
      GatherPrefix(net, batches, interval, m, n - 1);
      GatherGrows(net, batches, interval, n - 1);
      LeadsTrans(Gather(net, batches, interval, m), Gather(net, batches, interval, n - 1), Gather(net, batches, interval, n));
    }
  }

  /** Every attempt of this request fails. */
  predicate AllFail(replies: Replies<Body>) {
    forall i :: 0 <= i < MaxRetries ==> !IsOk(replies[i])
  }

  /**
    * When every attempt of every request fails, there are no rows, three
    * records and the three back-off pauses per request, and no other pause.
    */
  lemma {:induction false} GatherAllFail(net: Network, batches: seq<seq<Listing>>, interval: real, n: nat)
    requires n <= |batches|
    requires forall b :: 0 <= b < n ==> AllFail(Ask(net, b, RequestParams(batches[b])))
    ensures Gather(net, batches, interval, n).items == []
    ensures |Gather(net, batches, interval, n).entries| == MaxRetries * n
    ensures |Gather(net, batches, interval, n).sleeps| == MaxRetries * n
  {
    if n > 0 {
      GatherAllFail(net, batches, interval, n - 1);
      var replies := Ask(net, n - 1, RequestParams(batches[n - 1]));
      assert AllFail(replies);
      assert !IsOk(replies[0]) && !IsOk(replies[1]) && !IsOk(replies[2]);
      RetryGivesUp(replies);
    }
  }

  /**
    * The requests of a snapshot cover the codes once each, in order, paired
    * with their venues: at most 50 to a request, all full but the last, and
    * as few requests as that allows.
    */
  lemma BatchesCover(codes: seq<string>)
    ensures Flatten(Batches(codes)) == Pairs(codes)
    ensures forall j :: 0 <= j < |Batches(codes)| ==> 0 < |Batches(codes)[j]| <= MaxCodesPerRequest
    ensures codes == [] ==> Batches(codes) == []
    ensures codes != [] ==>
      (|Batches(codes)| - 1) * MaxCodesPerRequest < |codes| <= |Batches(codes)| * MaxCodesPerRequest
  {
    ChunkedFlatten(Pairs(codes), MaxCodesPerRequest);
    ChunkedCount(Pairs(codes), MaxCodesPerRequest);
  }

  /** No codes: no request, no record, no pause, no row. */
  lemma FetchedNothing(net: Network, interval: real)
    ensures Fetched(net, [], interval) == Harvest([], [], [])
  {
    BatchesCover([]);
  }
}
