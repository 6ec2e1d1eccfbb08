/** The claims ledger and the document vault (`src/context/ClaimsContext.jsx`):
    two lists that are only ever prepended to, loaded once from the browser's
    key-value store and written back whole on every change. The clock
    (`Date.now`, the formatted date) and the random draw (`Math.random`) are
    parameters. */
module ClaimsContext {
  import opened Wrappers
  import opened Text
  import opened Analysis

  /** A claim record. The four hand-off fields are optional because a caller
      may leave them out (they are then `undefined` on the record). */
  datatype Claim = Claim(
    id: int,
    claimNumber: int,
    date: string,
    status: string,
    vehicle: Option<string>,
    incident: Option<string>,
    estimate: Option<string>,
    parts: Option<seq<Part>>)

  /** The fields a caller passes to `addClaim`; `None` means the key is not
      supplied. A supplied key overrides the generated default. */
  datatype ClaimData = ClaimData(
    id: Option<int>,
    claimNumber: Option<int>,
    date: Option<string>,
    status: Option<string>,
    vehicle: Option<string>,
    incident: Option<string>,
    estimate: Option<string>,
    parts: Option<seq<Part>>)

  /** A document's metadata; the file's bytes are not kept. */
  datatype Document = Document(id: int, name: string, docType: string, date: string, status: string)

  /** The two properties of a browser `File` the application reads. */
  datatype FileInfo = FileInfo(name: string, mediaType: string)

  // ---------------------------------------------------------------------------
  // The key-value store

  /** What a store slot holds once deserialised. A slot holding the other
      collection's shape stands for text that does not read back as the
      expected list. */
  datatype Stored = ClaimList(claims: seq<Claim>) | DocumentList(documents: seq<Document>)

  type Store = map<string, Stored>

  const ClaimsKey: string := "insuria_claims"
  const DocumentsKey: string := "insuria_documents"

  /** Stored data that cannot be read as the expected list; the application
      does not handle it, so mounting fails. */
  datatype LoadError = Unreadable(key: string)

  /** The vault's content when nothing has been stored yet. */
  const SeedDocuments: seq<Document> := [
    Document(1, "Driver's License", "Identification", "Oct 24, 2025", "verified"),
    Document(2, "Vehicle Registration (Lagos)", "Vehicle Paper", "Jan 10, 2026", "verified"),
    Document(3, "Insurance Certificate", "Policy", "Dec 01, 2025", "verified")
  ]

  /** The provider's state: the two working lists and the store behind them. */
  datatype Ledger = Ledger(claims: seq<Claim>, documents: seq<Document>, store: Store)

  /** The store holds exactly the in-memory lists under their keys. */
  predicate Persisted(l: Ledger) {
    && ClaimsKey in l.store && l.store[ClaimsKey] == ClaimList(l.claims)
    && DocumentsKey in l.store && l.store[DocumentsKey] == DocumentList(l.documents)
  }

  /** Keys other than `key` are untouched between two stores. */
  ghost predicate OnlyKeyChanged(before: Store, after: Store, key: string) {
    forall k | k != key :: (k in after <==> k in before) && (k in before ==> after[k] == before[k])
  }

  function LoadClaims(store: Store): Result<seq<Claim>, LoadError> {
    if ClaimsKey !in store then Success([])
    else match store[ClaimsKey]
      case ClaimList(cs) => Success(cs)
      case DocumentList(_) => Failure(Unreadable(ClaimsKey))
  }

  function LoadDocuments(store: Store): Result<seq<Document>, LoadError> {
    if DocumentsKey !in store then Success(SeedDocuments)
    else match store[DocumentsKey]
      case DocumentList(ds) => Success(ds)
      case ClaimList(_) => Failure(Unreadable(DocumentsKey))
  }

  /** Mounting the provider: both lists are loaded (claims first), falling
      back to the empty ledger and the seed documents, and the effects that
      run on mount write both lists back. */
  function Mount(store: Store): (r: Result<Ledger, LoadError>)
    ensures r.Success? ==>
      && (ClaimsKey in store ==> store[ClaimsKey] == ClaimList(r.value.claims))
      && (ClaimsKey !in store ==> r.value.claims == [])
      && (DocumentsKey in store ==> store[DocumentsKey] == DocumentList(r.value.documents))
      && (DocumentsKey !in store ==> r.value.documents == SeedDocuments)
    ensures r.Success? ==> Persisted(r.value)
    ensures r.Success? ==> forall k | k != ClaimsKey && k != DocumentsKey ::
      (k in r.value.store <==> k in store) && (k in store ==> r.value.store[k] == store[k])
    ensures r.Failure? <==>
      (ClaimsKey in store && !store[ClaimsKey].ClaimList?) || (DocumentsKey in store && !store[DocumentsKey].DocumentList?)
  {
    match LoadClaims(store)
    case Failure(e) => Failure(e)
    case Success(cs) =>
      match LoadDocuments(store)
      case Failure(e) => Failure(e)
      case Success(ds) =>
        Success(Ledger(cs, ds, store[ClaimsKey := ClaimList(cs)][DocumentsKey := DocumentList(ds)]))
  }

  /** A fresh browser starts with no claims and the three seed documents,
      every one of them verified. */
  lemma MountEmptyStore()
    ensures Mount(map[]).Success?
    ensures Mount(map[]).value.claims == []
    ensures Mount(map[]).value.documents == SeedDocuments
    ensures forall d | d in Mount(map[]).value.documents :: d.status == "verified"
  {
  }

  /** Reloading a persisted ledger gives it back unchanged: what is written
      on every change is exactly what the next mount reads. */
  lemma ReloadRoundTrip(l: Ledger)
    requires Persisted(l)
    ensures Mount(l.store) == Success(l)
  {
    assert l.store[ClaimsKey := ClaimList(l.claims)] == l.store;
    assert l.store[DocumentsKey := DocumentList(l.documents)] == l.store;
  }

  /** Mounting twice without a change in between loads the same lists. */
  lemma MountIdempotent(store: Store)
    requires Mount(store).Success?
    ensures Mount(Mount(store).value.store) == Mount(store)
  {
    ReloadRoundTrip(Mount(store).value);
  }

  // ---------------------------------------------------------------------------
  // The claims ledger

  /** `Math.floor(100 + Math.random() * 900)` for a draw in [0, 1). */
  function ClaimNumber(draw: real): (n: int)
    requires 0.0 <= draw < 1.0
    ensures 100 <= n <= 999
  {
    (100.0 + draw * 900.0).Floor
  }

  /** Every three-digit number is the claim number of some draw. */
  lemma ClaimNumberCoversRange(n: int)
    requires 100 <= n <= 999
    ensures exists draw: real | 0.0 <= draw < 1.0 :: ClaimNumber(draw) == n
  {
    var draw := (n - 100) as real / 900.0;
    assert 100.0 + draw * 900.0 == n as real;
    assert ClaimNumber(draw) == n;
  }

  /** The claim every supplied field of `data` shows up in. */
  predicate Overrides(data: ClaimData, c: Claim) {
    && (data.id.Some? ==> c.id == data.id.value)
    && (data.claimNumber.Some? ==> c.claimNumber == data.claimNumber.value)
    && (data.date.Some? ==> c.date == data.date.value)
    && (data.status.Some? ==> c.status == data.status.value)
    && c.vehicle == data.vehicle && c.incident == data.incident
    && c.estimate == data.estimate && c.parts == data.parts
  }

  /** The record `addClaim` builds: generated defaults first, the caller's
      fields spread over them. */
  function NewClaim(data: ClaimData, now: int, draw: real, dateText: string): (c: Claim)
    requires 0.0 <= draw < 1.0
    ensures Overrides(data, c)
    ensures data.id.None? ==> c.id == now
    ensures data.claimNumber.None? ==> 100 <= c.claimNumber <= 999
    ensures data.date.None? ==> c.date == dateText
    ensures data.status.None? ==> c.status == "submitted"
  {
    Claim(
      if data.id.Some? then data.id.value else now,
      if data.claimNumber.Some? then data.claimNumber.value else ClaimNumber(draw),
      if data.date.Some? then data.date.value else dateText,
      if data.status.Some? then data.status.value else "submitted",
      data.vehicle, data.incident, data.estimate, data.parts)
  }

  datatype Added = Added(ledger: Ledger, claim: Claim)

  /** `addClaim`: the new claim goes in front, the vault is untouched, the
      claims list is written back, and the new claim is returned. */
  function AddClaim(l: Ledger, data: ClaimData, now: int, draw: real, dateText: string): (r: Added)
    requires 0.0 <= draw < 1.0
    ensures r.ledger.claims == [r.claim] + l.claims
    ensures r.ledger.documents == l.documents
    ensures ClaimsKey in r.ledger.store && r.ledger.store[ClaimsKey] == ClaimList(r.ledger.claims)
    ensures OnlyKeyChanged(l.store, r.ledger.store, ClaimsKey)
    ensures Persisted(l) ==> Persisted(r.ledger)
    ensures Overrides(data, r.claim)
    ensures data.id.None? ==> r.claim.id == now
    ensures data.claimNumber.None? ==> 100 <= r.claim.claimNumber <= 999
    ensures data.date.None? ==> r.claim.date == dateText
    ensures data.status.None? ==> r.claim.status == "submitted"
  {
    var c := NewClaim(data, now, draw, dateText);
    var claims := [c] + l.claims;
    Added(Ledger(claims, l.documents, l.store[ClaimsKey := ClaimList(claims)]), c)
  }

  /** `activeClaim`: the most recent claim (the ledger is newest first), or
      nothing when there is none. */
  function ActiveClaim(l: Ledger): (r: Option<Claim>)
    ensures r.None? <==> l.claims == []
    ensures r.Some? ==> r.value == l.claims[0]
  {
    if |l.claims| > 0 then Some(l.claims[0]) else None
  }

  /** One `addClaim` call with its clock readings and random draw. */
  datatype ClaimRequest = ClaimRequest(data: ClaimData, now: int, draw: real, dateText: string)

  predicate ValidDraws(reqs: seq<ClaimRequest>) {
    forall i | 0 <= i < |reqs| :: 0.0 <= reqs[i].draw < 1.0
  }

  /** A run of `addClaim` calls in order: the final ledger and the claims the
      calls returned, oldest first. */
  function AddClaims(l: Ledger, reqs: seq<ClaimRequest>): (Ledger, seq<Claim>)
    requires ValidDraws(reqs)
    decreases |reqs|
  {
    if reqs == [] then (l, [])
    else
      var a := AddClaim(l, reqs[0].data, reqs[0].now, reqs[0].draw, reqs[0].dateText);
      var (final, created) := AddClaims(a.ledger, reqs[1..]);
      (final, [a.claim] + created)
  }

  function Reverse<T>(s: seq<T>): seq<T>
    decreases |s|
  {
    if s == [] then [] else Reverse(s[1..]) + [s[0]]
  }

  lemma ReverseCons<T>(x: T, s: seq<T>)
    ensures Reverse([x] + s) == Reverse(s) + [x]
  {
    assert ([x] + s)[1..] == s;
  }

  /** The newest element of `s` comes first in `Reverse(s)`. */
  lemma {:induction false} ReverseHead<T>(s: seq<T>)
    requires |s| > 0
    ensures |Reverse(s)| == |s| && Reverse(s)[0] == s[|s| - 1]
    decreases |s|
  {
    if |s| > 1 {
      ReverseHead(s[1..]);
    }
  }

  lemma ValidDrawsTail(reqs: seq<ClaimRequest>)
    requires reqs != [] && ValidDraws(reqs)
    ensures ValidDraws(reqs[1..])
  {
    forall i | 0 <= i < |reqs[1..]| ensures 0.0 <= reqs[1..][i].draw < 1.0 {
      assert reqs[1..][i] == reqs[i + 1];
    }
  }

  /** After any run of `addClaim` calls the ledger lists the returned claims
      newest first in front of the old ones, and the vault is unchanged. */
  lemma {:induction false} AddClaimsShape(l: Ledger, reqs: seq<ClaimRequest>)
    requires ValidDraws(reqs)
    ensures |AddClaims(l, reqs).1| == |reqs|
    ensures AddClaims(l, reqs).0.claims == Reverse(AddClaims(l, reqs).1) + l.claims
    ensures AddClaims(l, reqs).0.documents == l.documents
    decreases |reqs|
  {
    if reqs != [] {
      var a := AddClaim(l, reqs[0].data, reqs[0].now, reqs[0].draw, reqs[0].dateText);
      ValidDrawsTail(reqs);
      AddClaimsShape(a.ledger, reqs[1..]);
      var (final, created) := AddClaims(a.ledger, reqs[1..]);
      ReverseCons(a.claim, created);
      calc {
        final.claims;
        Reverse(created) + a.ledger.claims;
        Reverse(created) + ([a.claim] + l.claims);
        (Reverse(created) + [a.claim]) + l.claims;
        Reverse([a.claim] + created) + l.claims;
      }
    }
  }

  /** After a non-empty run of `addClaim` calls the active claim is the one
      the last call returned; an empty run leaves it as it was. */
  lemma LastAddedIsActive(l: Ledger, reqs: seq<ClaimRequest>)
    requires ValidDraws(reqs)
    ensures |AddClaims(l, reqs).1| == |reqs|
    ensures |reqs| > 0 ==> ActiveClaim(AddClaims(l, reqs).0) == Some(AddClaims(l, reqs).1[|reqs| - 1])
    ensures |reqs| == 0 ==> ActiveClaim(AddClaims(l, reqs).0) == ActiveClaim(l)
  {
    AddClaimsShape(l, reqs);
    if |reqs| > 0 {
      var created := AddClaims(l, reqs).1;
      ReverseHead(created);
      assert AddClaims(l, reqs).0.claims[0] == Reverse(created)[0];
    }
  }

  // ---------------------------------------------------------------------------
  // The document vault

  /** The type tag `addDocument` derives from a media type: the second
      `/`-separated segment upper-cased, or `"FILE"` when that segment is
      missing or empty. */
  function TypeTag(mediaType: string): (tag: string)
    ensures tag != []
  {
    var segments := Split(mediaType, '/');
    var sub := if |segments| >= 2 then Upper(segments[1]) else [];
    if sub == [] then "FILE" else sub
  }

  /** For a media type `type "/" subtype`, optionally followed by further
      `/`-segments, the tag is the upper-cased subtype, or `"FILE"` when the
      subtype is empty. */
  lemma TypeTagOfSubtype(top: string, sub: string, tail: string)
    requires '/' !in top && '/' !in sub
    requires tail == [] || tail[0] == '/'
    ensures TypeTag(top + "/" + sub + tail) == if sub == [] then "FILE" else Upper(sub)
  {
    assert top + "/" + sub + tail == top + ['/'] + (sub + tail);
    SplitAtFirst(top, sub + tail, '/');
    if tail == [] {
      assert sub + tail == sub;
      SplitNoSeparator(sub, '/');
    } else {
      assert sub + tail == sub + ['/'] + tail[1..];
      SplitAtFirst(sub, tail[1..], '/');
    }
  }

  /** A media type without a `/` has no subtype and is tagged `"FILE"`. */
  lemma TypeTagWithoutSlash(mediaType: string)
    requires '/' !in mediaType
    ensures TypeTag(mediaType) == "FILE"
  {
    SplitNoSeparator(mediaType, '/');
  }

  lemma TypeTagExamples()
    ensures TypeTag("image/jpeg") == "JPEG"
    ensures TypeTag("image/") == "FILE"
    ensures TypeTag("") == "FILE"
  {
    TypeTagOfSubtype("image", "jpeg", "");
    assert "image/jpeg" == "image" + "/" + "jpeg" + "";
    assert Upper("jpeg") == "JPEG";
    TypeTagOfSubtype("image", "", "");
    assert "image/" == "image" + "/" + "" + "";
    TypeTagWithoutSlash("");
  }

  /** `addDocument`: a pending record named after the file, tagged by its
      media type, goes in front of the vault; the ledger is untouched and the
      vault is written back. */
  function AddDocument(l: Ledger, file: FileInfo, now: int, dateText: string): (r: Ledger)
    ensures |r.documents| == |l.documents| + 1 && r.documents[1..] == l.documents
    ensures r.documents[0].id == now && r.documents[0].date == dateText
    ensures r.documents[0].name == file.name
    ensures r.documents[0].docType == TypeTag(file.mediaType)
    ensures r.documents[0].status == "pending"
    ensures r.claims == l.claims
    ensures DocumentsKey in r.store && r.store[DocumentsKey] == DocumentList(r.documents)
    ensures OnlyKeyChanged(l.store, r.store, DocumentsKey)
    ensures Persisted(l) ==> Persisted(r)
  {
    var doc := Document(now, file.name, TypeTag(file.mediaType), dateText, "pending");
    var documents := [doc] + l.documents;
    Ledger(l.claims, documents, l.store[DocumentsKey := DocumentList(documents)])
  }
}
