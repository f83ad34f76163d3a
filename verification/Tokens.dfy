/**
  Market records as the fetcher sees them (coingecko_markets/cache_utils.go).
  JSON text is abstract: a record either does not parse, or parses without a
  usable id, or carries a non-empty id.
*/
module Tokens {
  import opened Wrappers
  import opened Sequences

  datatype Token =
    | Malformed(text: string)
    | NoId(text: string)
    | Record(id: string, text: string)
  {
    /** json.Unmarshal succeeds. */
    predicate Parses() {
      !Malformed?
    }

    predicate IsRecordOf(id: string) {
      Record? && this.id == id && id != ""
    }

    /** The id field is present, a string, and not empty. */
    predicate HasId() {
      Record? && id != ""
    }
  }

  datatype PageData = PageData(page: int, data: seq<Token>)

  /** The ids of a page, in page order; records without a usable id are skipped. */
  function ExtractIds(data: seq<Token>): seq<string> {
    if data == [] then []
    else
      var last := data[|data| - 1];
      ExtractIds(data[..|data| - 1]) + if last.HasId() then [last.id] else []
  }

  /** The id fields, or nothing where there is none. */
  function IdFields(data: seq<Token>): (r: seq<string>)
    ensures |r| == |data| && forall i :: 0 <= i < |data| ==> r[i] == if data[i].Record? then data[i].id else ""
  {
    seq(|data|, i requires 0 <= i < |data| => if data[i].Record? then data[i].id else "")
  }

  ghost function WithId(data: seq<Token>): set<nat> {
    set i: nat | i < |data| && data[i].Record? && data[i].id != ""
  }

  lemma WithIdStep(data: seq<Token>, token: Token)
    ensures WithId(data + [token]) == WithId(data) + if token.Record? && token.id != "" then {|data|} else {}
  {
    var all := data + [token];
    assert forall i :: 0 <= i < |data| ==> all[i] == data[i];
  }

  lemma IdFieldsStep(data: seq<Token>, token: Token)
    ensures IdFields(data + [token]) == IdFields(data) + [if token.Record? then token.id else ""]
  {
  }

  lemma ExtractStep(data: seq<Token>, token: Token)
    ensures ExtractIds(data + [token]) == ExtractIds(data) + if token.HasId() then [token.id] else []
  {
    assert (data + [token])[..|data|] == data;
  }

  lemma IdsGrow(data: seq<Token>, token: Token)
    requires Selects(IdFields(data), ExtractIds(data), WithId(data))
    ensures Selects(IdFields(data + [token]), ExtractIds(data + [token]), WithId(data + [token]))
  {
    var field := if token.Record? then token.id else "";
    SelectsOneMore(IdFields(data), field, ExtractIds(data), WithId(data), token.Record? && token.id != "");
    WithIdStep(data, token);
    IdFieldsStep(data, token);
    ExtractStep(data, token);
  }

  /** The ids of a page are its non-empty id fields, in page order, each as often as it stands there. */
  lemma {:induction false} IdsAreFields(data: seq<Token>)
    ensures Selects(IdFields(data), ExtractIds(data), WithId(data))
  {
    if data == [] {
      SelectsNone<string>();
      assert WithId(data) == {} && IdFields(data) == [];
    } else {
      var n := |data| - 1;
      IdsAreFields(data[..n]);
      IdsGrow(data[..n], data[n]);
      assert data == data[..n] + [data[n]];
    }
  }

  method ExtractTokenIDs(data: seq<Token>) returns (ids: seq<string>)
    ensures ids == ExtractIds(data)
  {
    ids := [];
    for i := 0 to |data|
      invariant ids == ExtractIds(data[..i])
    {
      assert data[..i + 1][..i] == data[..i];
      if data[i].Parses() {
        if data[i].Record? {
          if data[i].id != "" {
            ids := ids + [data[i].id];
          }
        }
      }
    }
    assert data[..|data|] == data;
  }

  /** The last record of a page that carries this id. */
  function LastRecord(data: seq<Token>, id: string): (r: Option<Token>)
    ensures r.Some? ==> r.value.HasId() && r.value.id == id
  {
    if data == [] then None
    else
      var last := data[|data| - 1];
      if last.HasId() && last.id == id then Some(last) else LastRecord(data[..|data| - 1], id)
  }

  /** The last record with this id in the first n pages, one page after the other. */
  function LastInPages(pagesData: seq<PageData>, n: nat, id: string): (r: Option<Token>)
    requires n <= |pagesData|
  {
    if n == 0 then None
    else if LastRecord(pagesData[n - 1].data, id).Some? then LastRecord(pagesData[n - 1].data, id)
    else LastInPages(pagesData, n - 1, id)
  }

  /** No later record of the page carries the id. */
  lemma {:induction false} LastRecordMeans(data: seq<Token>, id: string) returns (i: int)
    ensures -1 <= i < |data|
    ensures i >= 0 ==> LastRecord(data, id) == Some(data[i]) && data[i].IsRecordOf(id)
    ensures i < 0 ==> LastRecord(data, id).None?
    ensures forall j :: i < j < |data| ==> !data[j].IsRecordOf(id)
  {
    if data == [] {
      i := -1;
    } else if data[|data| - 1].IsRecordOf(id) {
      i := |data| - 1;
    } else {
      i := LastRecordMeans(data[..|data| - 1], id);
    }
  }

  /** No later page has a record of the id. */
  lemma {:induction false} LastInPagesMeans(pagesData: seq<PageData>, n: nat, id: string) returns (i: int)
    requires n <= |pagesData|
    ensures -1 <= i < n
    ensures i >= 0 ==> LastInPages(pagesData, n, id) == LastRecord(pagesData[i].data, id)
                       && LastRecord(pagesData[i].data, id).Some?
    ensures i < 0 ==> LastInPages(pagesData, n, id).None?
    ensures forall j :: i < j < n ==> LastRecord(pagesData[j].data, id).None?
  {
    if n == 0 {
      i := -1;
    } else if LastRecord(pagesData[n - 1].data, id).Some? {
      i := n - 1;
    } else {
      i := LastInPagesMeans(pagesData, n - 1, id);
    }
  }

  /** A page has a record with an id exactly when it lists the id. */
  lemma {:induction false} RecordIffListed(data: seq<Token>, id: string)
    ensures LastRecord(data, id).Some? <==> id in ExtractIds(data)
  {
    if data != [] {
      RecordIffListed(data[..|data| - 1], id);
    }
  }

  /** The records of a page that parse, in page order. */
  function Parsed(data: seq<Token>): seq<Token> {
    if data == [] then []
    else
      var last := data[|data| - 1];
      Parsed(data[..|data| - 1]) + if last.Parses() then [last] else []
  }

  ghost function Readable(data: seq<Token>): set<nat> {
    set i: nat | i < |data| && !data[i].Malformed?
  }

  lemma ReadableStep(data: seq<Token>, token: Token)
    ensures Readable(data + [token]) == Readable(data) + if !token.Malformed? then {|data|} else {}
    ensures Parsed(data + [token]) == Parsed(data) + if token.Parses() then [token] else []
  {
    var all := data + [token];
    assert all[..|data|] == data;
    assert forall i :: 0 <= i < |data| ==> all[i] == data[i];
  }

  lemma ParsedGrows(data: seq<Token>, token: Token)
    requires Selects(data, Parsed(data), Readable(data))
    ensures Selects(data + [token], Parsed(data + [token]), Readable(data + [token]))
  {
    SelectsOneMore(data, token, Parsed(data), Readable(data), !token.Malformed?);
    ReadableStep(data, token);
  }

  /** The records that parse are all but the malformed ones, in page order. */
  lemma {:induction false} ParsedIsReadable(data: seq<Token>)
    ensures Selects(data, Parsed(data), Readable(data))
  {
    if data == [] {
      SelectsNone<Token>();
      assert Readable(data) == {};
    } else {
      var n := |data| - 1;
      ParsedIsReadable(data[..n]);
      ParsedGrows(data[..n], data[n]);
      assert data == data[..n] + [data[n]];
    }
  }

  predicate AllHaveIds(data: seq<Token>) {
    forall i :: 0 <= i < |data| ==> data[i].HasId()
  }

  /** A page of well-formed records loses nothing, and its ids are the records' ids one by one. */
  lemma {:induction false} WellFormedPage(data: seq<Token>)
    requires AllHaveIds(data)
    ensures Parsed(data) == data
    ensures |ExtractIds(data)| == |data|
    ensures forall i :: 0 <= i < |data| ==> ExtractIds(data)[i] == data[i].id
  {
    if data != [] {
      WellFormedPage(data[..|data| - 1]);
    }
  }

  lemma {:induction false} ExtractIdsConcat(s: seq<Token>, t: seq<Token>)
    ensures ExtractIds(s + t) == ExtractIds(s) + ExtractIds(t)
  {
    if t == [] {
      assert s + t == s;
    } else {
      var n := |t| - 1;
      assert (s + t)[..|s| + n] == s + t[..n];
      ExtractIdsConcat(s, t[..n]);
    }
  }
}
