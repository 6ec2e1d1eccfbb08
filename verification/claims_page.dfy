/** The claims screen (`src/pages/Claims.jsx`): the per-document export
    (download file name and text), the status badge, the upload guard in
    front of `addDocument`, and the active-claim heading. The browser
    download itself (blob, object URL, anchor click) is not modelled. */
module ClaimsPage {
  import opened Wrappers
  import opened Text
  import opened ClaimsContext

  // ---------------------------------------------------------------------------
  // Download file name

  /** `name.replace(/\s+/g, '_')`, read left to right: `inRun` says whether
      the character before `s` was whitespace. A whitespace character
      starting a run becomes an underscore, one continuing a run is dropped,
      and every other character is kept. */
  function SanitizeFrom(s: string, inRun: bool): (r: string)
    decreases |s|
  {
    if s == [] then []
    else if IsSpace(s[0]) then (if inRun then [] else "_") + SanitizeFrom(s[1..], true)
    else [s[0]] + SanitizeFrom(s[1..], false)
  }

  /** No whitespace survives, and the result is never longer. */
  lemma {:induction false} SanitizeRemovesSpace(s: string, inRun: bool)
    ensures NoSpace(SanitizeFrom(s, inRun))
    ensures |SanitizeFrom(s, inRun)| <= |s|
    decreases |s|
  {
    if s != [] {
      SanitizeRemovesSpace(s[1..], IsSpace(s[0]));
      var rest := SanitizeFrom(s[1..], IsSpace(s[0]));
      assert !IsSpace('_');
      assert forall k | 0 < k < |rest| + 1 :: ([s[0]] + rest)[k] == rest[k - 1];
      assert forall k | 0 < k < |rest| + 1 :: ("_" + rest)[k] == rest[k - 1];
    }
  }

  /** The sanitised name: no whitespace is left. */
  function Sanitize(s: string): (r: string)
    ensures NoSpace(r)
  {
    SanitizeRemovesSpace(s, false);
    SanitizeFrom(s, false)
  }

  /** The file name of a document's download. */
  function DownloadName(name: string): (r: string)
    ensures |r| >= 4 && r[|r| - 4..] == ".txt"
    ensures r[..|r| - 4] == Sanitize(name)
    ensures NoSpace(r[..|r| - 4])
  {
    var stem := Sanitize(name);
    assert (stem + ".txt")[..|stem|] == stem;
    assert (stem + ".txt")[|stem|..] == ".txt";
    stem + ".txt"
  }

  /** Names without whitespace are kept as they are. */
  lemma {:induction false} SanitizeKeepsPlainNames(s: string, inRun: bool)
    requires NoSpace(s)
    ensures SanitizeFrom(s, inRun) == s
    decreases |s|
  {
    if s != [] {
      SanitizeKeepsPlainNames(s[1..], false);
      assert s == [s[0]] + s[1..];
    }
  }

  /** Sanitising a sanitised name changes nothing. */
  lemma SanitizeIdempotent(s: string)
    ensures Sanitize(Sanitize(s)) == Sanitize(s)
  {
    SanitizeKeepsPlainNames(Sanitize(s), false);
  }

  /** Whether the text read so far ends inside a whitespace run. */
  function EndsInRun(a: string, inRun: bool): bool {
    if a == [] then inRun else IsSpace(a[|a| - 1])
  }

  /** What one leading character contributes, and the state it leaves. */
  lemma SanitizeCons(c: char, t: string, inRun: bool)
    ensures SanitizeFrom([c] + t, inRun)
      == (if !IsSpace(c) then [c] else if inRun then [] else "_") + SanitizeFrom(t, IsSpace(c))
  {
    assert ([c] + t)[1..] == t;
  }

  /** Sanitising a concatenation sanitises the second part in the state the
      first part ends in. */
  lemma {:induction false} SanitizeAppend(a: string, c: string, inRun: bool)
    ensures SanitizeFrom(a + c, inRun) == SanitizeFrom(a, inRun) + SanitizeFrom(c, EndsInRun(a, inRun))
    decreases |a|
  {
    if a == [] {
      assert a + c == c;
    } else {
      var x, u := a[0], a[1..];
      var head := if !IsSpace(x) then [x] else if inRun then [] else "_";
      assert SanitizeFrom(a + c, inRun) == head + SanitizeFrom(u + c, IsSpace(x)) by {
        assert a + c == [x] + (u + c);
        SanitizeCons(x, u + c, inRun);
      }
      assert SanitizeFrom(u + c, IsSpace(x)) == SanitizeFrom(u, IsSpace(x)) + SanitizeFrom(c, EndsInRun(a, inRun)) by {
        assert EndsInRun(u, IsSpace(x)) == EndsInRun(a, inRun);
        SanitizeAppend(u, c, IsSpace(x));
      }
      assert SanitizeFrom(a, inRun) == head + SanitizeFrom(u, IsSpace(x)) by {
        assert a == [x] + u;
        SanitizeCons(x, u, inRun);
      }
      Reassociate(SanitizeFrom(a + c, inRun), SanitizeFrom(u + c, IsSpace(x)), SanitizeFrom(a, inRun),
        head, SanitizeFrom(u, IsSpace(x)), SanitizeFrom(c, EndsInRun(a, inRun)));
    }
  }

  /** A whitespace run gives one underscore when it starts a run, nothing
      when it continues one. */
  lemma {:induction false} SanitizeRun(ws: string, inRun: bool)
    requires ws != [] && AllSpace(ws)
    ensures SanitizeFrom(ws, inRun) == (if inRun then [] else "_")
    decreases |ws|
  {
    if |ws| > 1 {
      SanitizeRun(ws[1..], true);
    }
  }

  /** After a run, text that does not start with whitespace is read as if
      from the beginning. */
  lemma LeavingRun(b: string)
    requires b == [] || !IsSpace(b[0])
    ensures SanitizeFrom(b, true) == SanitizeFrom(b, false)
  {
  }

  /** The run decomposition: a whitespace run strictly between two words is
      replaced by exactly one underscore and the two sides are sanitised
      independently. */
  lemma SanitizeSplitsAtRun(a: string, ws: string, b: string)
    requires a == [] || !IsSpace(a[|a| - 1])
    requires ws != [] && AllSpace(ws)
    requires b == [] || !IsSpace(b[0])
    ensures Sanitize(a + ws + b) == Sanitize(a) + "_" + Sanitize(b)
  {
    calc {
      Sanitize(a + ws + b);
      SanitizeFrom(a + ws + b, false);
      { SanitizeAppend(a + ws, b, false); }
      SanitizeFrom(a + ws, false) + SanitizeFrom(b, EndsInRun(a + ws, false));
      { assert (a + ws)[|a + ws| - 1] == ws[|ws| - 1]; LeavingRun(b); }
      SanitizeFrom(a + ws, false) + SanitizeFrom(b, false);
      { SanitizeAppend(a, ws, false); SanitizeRun(ws, false); }
      SanitizeFrom(a, false) + "_" + SanitizeFrom(b, false);
    }
  }

  // ---------------------------------------------------------------------------
  // Export text

  const ExportPrefix: string := "This is a placeholder content for "

  /** The four lines the placeholder export consists of. */
  function ExportLines(name: string, docType: string, date: string, status: string): seq<string> {
    [ExportPrefix + name + ".", "Type: " + docType, "Uploaded: " + date, "Status: " + status]
  }

  /** The placeholder text a document downloads as: the template literal's
      four lines, separated by line breaks. */
  function ExportText(name: string, docType: string, date: string, status: string): (r: string)
    ensures |r| >= |ExportPrefix| + |name| && r[..|ExportPrefix| + |name|] == ExportPrefix + name
  {
    var r := (ExportPrefix + name + ".") + "\n" + ("Type: " + docType) + "\n" + ("Uploaded: " + date) + "\n" + ("Status: " + status);
    assert r == (ExportPrefix + name) + ("." + "\n" + ("Type: " + docType) + "\n" + ("Uploaded: " + date) + "\n" + ("Status: " + status));
    r
  }

  /** When no field contains a line break, the export reads back as exactly
      four lines: the placeholder sentence, then `Type`, `Uploaded` and
      `Status`, in that order. */
  lemma ExportTextLines(name: string, docType: string, date: string, status: string)
    requires '\n' !in name && '\n' !in docType && '\n' !in date && '\n' !in status
    ensures Split(ExportText(name, docType, date, status), '\n') == ExportLines(name, docType, date, status)
  {
    var lines := ExportLines(name, docType, date, status);
    assert forall k | 0 <= k < |lines| :: '\n' !in lines[k] by {
      forall k | 0 <= k < |lines| ensures '\n' !in lines[k] {
        if k == 0 { NoBreakJoin(ExportPrefix, name + "."); }
        else if k == 1 { NoBreakJoin("Type: ", docType); }
        else if k == 2 { NoBreakJoin("Uploaded: ", date); }
        else { NoBreakJoin("Status: ", status); }
      }
    }
    assert Join(lines, '\n') == ExportText(name, docType, date, status) by {
      ExportTextIsJoin(name, docType, date, status);
    }
    SplitJoin(lines, '\n');
  }

  /** The export text is its four lines joined by line breaks. */
  lemma ExportTextIsJoin(name: string, docType: string, date: string, status: string)
    ensures Join(ExportLines(name, docType, date, status), '\n') == ExportText(name, docType, date, status)
  {
    var lines := ExportLines(name, docType, date, status);
    JoinFour(lines[0], lines[1], lines[2], lines[3]);
    assert lines == [lines[0], lines[1], lines[2], lines[3]];
  }

  lemma JoinFour(l0: string, l1: string, l2: string, l3: string)
    ensures Join([l0, l1, l2, l3], '\n') == l0 + "\n" + l1 + "\n" + l2 + "\n" + l3
  {
    assert [l2, l3][1..] == [l3];
    assert [l1, l2, l3][1..] == [l2, l3];
    assert [l0, l1, l2, l3][1..] == [l1, l2, l3];
    calc {
      Join([l0, l1, l2, l3], '\n');
      l0 + "\n" + Join([l1, l2, l3], '\n');
      l0 + "\n" + (l1 + "\n" + Join([l2, l3], '\n'));
      l0 + "\n" + (l1 + "\n" + (l2 + "\n" + l3));
      l0 + "\n" + l1 + "\n" + l2 + "\n" + l3;
    }
  }

  lemma NoBreakJoin(a: string, b: string)
    requires '\n' !in a && '\n' !in b
    ensures '\n' !in a + b
  {
  }

  // ---------------------------------------------------------------------------
  // Status badge

  datatype Badge = Verified | Pending

  /** The badge a document shows: only the exact status `"verified"` earns the
      green one. */
  function BadgeOf(status: string): (b: Badge)
    ensures b == Verified <==> status == "verified"
  {
    if status == "verified" then Verified else Pending
  }

  /** The seed documents show as verified; a freshly uploaded one as
      pending. */
  lemma BadgesOfSeedAndUpload(l: Ledger, file: FileInfo, now: int, dateText: string)
    ensures forall d | d in SeedDocuments :: BadgeOf(d.status) == Verified
    ensures BadgeOf(AddDocument(l, file, now, dateText).documents[0].status) == Pending
  {
  }

  // ---------------------------------------------------------------------------
  // Upload guard

  /** `e.target.files?.[0]`: the first selected file, if any. */
  function FirstFile(files: Option<seq<FileInfo>>): (f: Option<FileInfo>)
    ensures f.Some? <==> files.Some? && |files.value| > 0
    ensures f.Some? ==> f.value == files.value[0]
  {
    if files.Some? && |files.value| > 0 then Some(files.value[0]) else None
  }

  /** `handleFileChange`: with no file the ledger is untouched; with one,
      exactly one document is added to the vault for the first file. */
  function HandleFileChange(l: Ledger, files: Option<seq<FileInfo>>, now: int, dateText: string): (r: Ledger)
    ensures FirstFile(files).None? ==> r == l
    ensures FirstFile(files).Some? ==>
      && |r.documents| == |l.documents| + 1
      && r.documents[1..] == l.documents
      && r.documents[0].name == files.value[0].name
      && r.documents[0].status == "pending"
      && r.documents[0].id == now && r.documents[0].date == dateText
      && r.documents[0].docType == TypeTag(files.value[0].mediaType)
      && DocumentsKey in r.store && r.store[DocumentsKey] == DocumentList(r.documents)
      && OnlyKeyChanged(l.store, r.store, DocumentsKey)
    ensures r.claims == l.claims
    ensures Persisted(l) ==> Persisted(r)
  {
    match FirstFile(files)
    case None => l
    case Some(file) => AddDocument(l, file, now, dateText)
  }

  /** An upload survives a reload: after a file change on a persisted
      ledger, mounting the store again gives back the same claims and
      vault, and the uploaded document shows as pending. */
  lemma UploadSurvivesReload(l: Ledger, files: Option<seq<FileInfo>>, now: int, dateText: string)
    requires Persisted(l)
    ensures Mount(HandleFileChange(l, files, now, dateText).store) == Success(HandleFileChange(l, files, now, dateText))
    ensures FirstFile(files).Some? ==> BadgeOf(HandleFileChange(l, files, now, dateText).documents[0].status) == Pending
    ensures ActiveClaim(HandleFileChange(l, files, now, dateText)) == ActiveClaim(l)
  {
    ReloadRoundTrip(HandleFileChange(l, files, now, dateText));
  }

  // ---------------------------------------------------------------------------
  // Active claim heading

  const HeadingPrefix: string := "Active Claim #"
  const NoClaimHeading: string := "No Active Claim"

  /** The heading of the claim-status card. */
  function Heading(active: Option<Claim>): (h: string)
    ensures active.None? ==> h == NoClaimHeading
    ensures active.Some? ==> |h| > |HeadingPrefix| && h[..|HeadingPrefix|] == HeadingPrefix
  {
    match active
    case None => NoClaimHeading
    case Some(c) =>
      var h := HeadingPrefix + IntToDecimal(c.claimNumber);
      assert h[..|HeadingPrefix|] == HeadingPrefix;
      h
  }

  /** The number after `#` reads back as the active claim's number, so the
      heading identifies the claim. */
  lemma HeadingNamesClaim(c: Claim)
    ensures var h := Heading(Some(c));
      ParseLeadingInt(h[|HeadingPrefix|..]) == Some(c.claimNumber)
  {
    var h := Heading(Some(c));
    assert h[|HeadingPrefix|..] == IntToDecimal(c.claimNumber) + [];
    DecimalRoundTrip(c.claimNumber, []);
  }

  /** Right after `addClaim` the heading names the new claim's number; with
      no claims it reads "No Active Claim". */
  lemma HeadingAfterAddClaim(l: Ledger, data: ClaimData, now: int, draw: real, dateText: string)
    requires 0.0 <= draw < 1.0
    ensures var added := AddClaim(l, data, now, draw, dateText);
      Heading(ActiveClaim(added.ledger)) == HeadingPrefix + IntToDecimal(added.claim.claimNumber)
    ensures l.claims == [] ==> Heading(ActiveClaim(l)) == NoClaimHeading
  {
  }
}
