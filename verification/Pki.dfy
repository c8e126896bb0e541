/** Rotation of a site's certificates (internal/pki/ensure.go, internal/pki/trust.go). Times are in seconds; a
    certificate is the record of what rotation looks at. */
module Pki {
  import opened Projects
  import opened Sorting

  const DAY := 86400
  const RENEW_WINDOW := 30 * DAY
  const CLOCK_SKEW := 300

  // AddDate(10, 0, 0) and 365 days: calendar arithmetic makes the first vary, never below 3650 days.
  type TenYears = s: int | 3650 * DAY <= s witness 3650 * DAY
  const INGESTOR_TTL := 365 * DAY

  datatype Ca = Ca(id: int, notBefore: int, notAfter: int)
  datatype CaPem = NoPem | BadPem | Pem(ca: Ca)

  // `key` identifies the private key that belongs to the certificate.
  datatype Cert = Cert(issuer: int, notBefore: int, notAfter: int, sans: seq<string>, serverAuth: bool, key: int)
  datatype CertFile = Missing | ReadError | Corrupt | Holds(cert: Cert)

  datatype Reason = ReasonMissing | ReasonExpiring | ReasonCaMismatch | ReasonSanDrift
  datatype Verdict = Fine | Rotate(reason: Reason) | CheckFails

  // ---- SAN comparison ----

  function Itself(s: string): string { s }

  // Sorted copies agree exactly if the lists hold the same names equally often. Equality of multisets being an
  // equivalence, so is the comparison.
  lemma SortedCopiesAgreeIff(a: seq<string>, b: seq<string>)
    ensures Sort(a, Itself) == Sort(b, Itself) <==> multiset(a) == multiset(b)
  {
    if multiset(a) == multiset(b) {
      SortIsSorting(a, Itself);
      SortIsSorting(b, Itself);
      SortingIsUnique(Sort(a, Itself), Sort(b, Itself), Itself);
    }
  }

  // sort.Strings on a buffer.
  method SortStrings(buffer: array<string>)
    modifies buffer
    ensures buffer[..] == Sort(old(buffer[..]), Itself)
  {
    var sorted := Sort(buffer[..], Itself);
    assert |sorted| == buffer.Length by {
      SameElements(buffer[..], sorted);
    }
    forall i | 0 <= i < buffer.Length {
      buffer[i] := sorted[i];
    }
    assert buffer[..] == sorted;
  }

  // make and copy
  method Copied(xs: seq<string>) returns (buffer: array<string>)
    ensures fresh(buffer) && buffer[..] == xs
  {
    buffer := new string[|xs|](i requires 0 <= i < |xs| => xs[i]);
  }

  lemma SameLength(a: seq<string>, b: seq<string>)
    requires multiset(a) == multiset(b)
    ensures |a| == |b|
  {
    assert |multiset(a)| == |a| && |multiset(b)| == |b|;
  }

  // Copies are sorted and compared position by position: the lists are equal as multisets, order aside. The method
  // may change nothing the caller can see.
  method SanSetsEqual(a: seq<string>, b: seq<string>) returns (equal: bool)
    ensures equal <==> multiset(a) == multiset(b)
  {
    if |a| != |b| {
      if multiset(a) == multiset(b) {
        SameLength(a, b);
      }
      return false;
    }
    var ac := Copied(a);
    var bc := Copied(b);
    SortStrings(ac);
    SortStrings(bc);
    SortedCopiesAgreeIff(a, b);
    equal := SameCells(ac, bc);
  }

  method SameCells(ac: array<string>, bc: array<string>) returns (same: bool)
    requires ac.Length == bc.Length
    ensures same <==> ac[..] == bc[..]
  {
    for i := 0 to ac.Length
      invariant ac[..i] == bc[..i]
    {
      if ac[i] != bc[i] {
        assert ac[..][i] != bc[..][i];
        return false;
      }
    }
    assert ac[..] == ac[..ac.Length] && bc[..] == bc[..bc.Length];
    same := true;
  }

  // ---- Rotation checks ----

  // x509 Verify with no KeyUsages given: it asks for ServerAuth.
  predicate Verifies(c: Cert, ca: Ca, now: int) {
    && c.issuer == ca.id && c.serverAuth
    && c.notBefore <= now <= c.notAfter && ca.notBefore <= now <= ca.notAfter
  }

  function NeedsRotation(file: CertFile, pem: CaPem, requiredSans: Option<seq<string>>, now: int): Verdict {
    match file
    case ReadError => CheckFails
    case Missing => Rotate(ReasonMissing)
    case Corrupt => Rotate(ReasonMissing)
    case Holds(c) =>
      if pem.BadPem? then CheckFails
      else if pem.Pem? && !Verifies(c, pem.ca, now) then Rotate(ReasonCaMismatch)
      else if c.notAfter - now <= RENEW_WINDOW then Rotate(ReasonExpiring)
      else if requiredSans.Some? && multiset(c.sans) != multiset(requiredSans.value) then Rotate(ReasonSanDrift)
      else Fine
  }

  // When rotation is asked for and why, against a CA: the file is not a certificate; or it is not good for server
  // authentication under this CA at this time; or it ends within 30 days; or it does not carry exactly the names.
  lemma RotationReasons(file: CertFile, ca: Ca, sans: Option<seq<string>>, now: int)
    ensures var v := NeedsRotation(file, Pem(ca), sans, now);
            && (v == CheckFails <==> file.ReadError?)
            && (v == Rotate(ReasonMissing) <==> file.Missing? || file.Corrupt?)
            && (file.Holds? ==>
                 var c := file.cert;
                 var valid := && c.issuer == ca.id && c.serverAuth && c.notBefore <= now <= c.notAfter
                              && ca.notBefore <= now <= ca.notAfter;
                 var lasts := now + 2592000 < c.notAfter;
                 var named := sans.Some? ==> multiset(c.sans) == multiset(sans.value);
                 && (v == Rotate(ReasonCaMismatch) <==> !valid)
                 && (v == Rotate(ReasonExpiring) <==> valid && !lasts)
                 && (v == Rotate(ReasonSanDrift) <==> valid && lasts && !named)
                 && (v == Fine <==> valid && lasts && named))
  {
  }

  // ---- EnsureTrustFiles ----

  // ca.crt holds a complete copy of some CA certificate, or what a failed write has left of one.
  datatype CaFile = CaMissing | CaTorn | CaHolds(pem: CaPem)

  datatype TrustFiles = TrustFiles(ca: CaFile, server: CertFile, serverKey: Option<int>, ingestor: CertFile,
    ingestorKey: Option<int>)

  // ca.crt is written in place, so that its write may also tear it.
  datatype CaWrite = Done | Refused | Torn

  // The two halves of a call may fail at any file operation; `start` is the time of the checks, `end` that of the
  // issuing and of the writes. Certificates and keys are written beside and renamed: a write that fails, or a
  // certificate that cannot be issued, leaves the old file.
  datatype Call = Call(
    sni: string, pem: CaPem, start: int, end: int, ttl: TenYears, serverKeyId: int, ingestorKeyId: int,
    mkdirOk: bool, caWrite: CaWrite, caLoads: bool,
    serverCertOk: bool, serverKeyOk: bool, ingestorCertOk: bool, ingestorKeyOk: bool)

  predicate ValidCall(call: Call) {
    call.pem.Pem? && call.start <= call.end
  }

  datatype Result = Result(files: TrustFiles, ok: bool, serverRotated: bool, ingestorRotated: bool)

  function ServerCert(call: Call): Cert
    requires call.pem.Pem?
  {
    Cert(call.pem.ca.id, call.end - CLOCK_SKEW, call.end - CLOCK_SKEW + call.ttl, [call.sni], true, call.serverKeyId)
  }

  function IngestorCert(call: Call): Cert
    requires call.pem.Pem?
  {
    Cert(call.pem.ca.id, call.end - CLOCK_SKEW, call.end - CLOCK_SKEW + INGESTOR_TTL, [], false, call.ingestorKeyId)
  }

  function ServerHalf(f: TrustFiles, call: Call): Result
    requires call.pem.Pem?
  {
    match NeedsRotation(f.server, call.pem, Some([call.sni]), call.start)
    case CheckFails => Result(f, false, false, false)
    case Fine => Result(f, true, false, false)
    case Rotate(_) =>
      if !call.caLoads || !call.serverCertOk then Result(f, false, false, false)
      else
        var f1 := f.(server := Holds(ServerCert(call)));
        if !call.serverKeyOk then Result(f1, false, false, false)
        else Result(f1.(serverKey := Some(call.serverKeyId)), true, true, false)
  }

  function IngestorHalf(f: TrustFiles, call: Call): Result
    requires call.pem.Pem?
  {
    match NeedsRotation(f.ingestor, call.pem, None, call.start)
    case CheckFails => Result(f, false, false, false)
    case Fine => Result(f, true, false, false)
    case Rotate(_) =>
      if !call.caLoads || !call.ingestorCertOk then Result(f, false, false, false)
      else
        var f1 := f.(ingestor := Holds(IngestorCert(call)));
        if !call.ingestorKeyOk then Result(f1, false, false, false)
        else Result(f1.(ingestorKey := Some(call.ingestorKeyId)), true, false, true)
  }

  // ca.crt is written only if nothing is there; what is there is not looked at.
  function CaAfter(f: TrustFiles, call: Call): CaFile {
    if f.ca != CaMissing then f.ca
    else match call.caWrite
      case Done => CaHolds(call.pem)
      case Refused => CaMissing
      case Torn => CaTorn
  }

  // The call gets past the directory and ca.crt.
  predicate PastCa(f: TrustFiles, call: Call) {
    call.mkdirOk && (f.ca != CaMissing || call.caWrite == Done)
  }

  function Ensure(f: TrustFiles, call: Call): Result
    requires call.pem.Pem?
  {
    if !call.mkdirOk then Result(f, false, false, false)
    else
      var f1 := f.(ca := CaAfter(f, call));
      if !PastCa(f, call) then Result(f1, false, false, false)
      else
        var s := ServerHalf(f1, call);
        if !s.ok then s
        else
          var i := IngestorHalf(s.files, call);
          Result(i.files, i.ok, s.serverRotated, i.ingestorRotated)
  }

  // ---- The server certificate over time ----

  predicate ServesAt(file: CertFile, sni: string, now: int) {
    file.Holds? && file.cert.sans == [sni] && file.cert.serverAuth && file.cert.notBefore <= now <= file.cert.notAfter
  }

  lemma SingleSan(sans: seq<string>, sni: string)
    requires multiset(sans) == multiset([sni])
    ensures sans == [sni]
  {
    SameElements(sans, [sni]);
    assert sans[0] in [sni];
  }

  // What a successful call leaves serves for 30 days from its check, and a little longer.
  lemma CallLeavesThirtyDays(f: TrustFiles, call: Call)
    requires ValidCall(call) && Ensure(f, call).ok
    ensures var c := Ensure(f, call).files.server;
            && c.Holds? && c.cert.issuer == call.pem.ca.id && c.cert.notAfter > call.start + RENEW_WINDOW
            && forall now :: call.end <= now <= call.start + RENEW_WINDOW ==> ServesAt(c, call.sni, now)
  {
    if f.server.Holds? && multiset(f.server.cert.sans) == multiset([call.sni]) {
      SingleSan(f.server.cert.sans, call.sni);
    }
  }

  predicate AllPem(calls: seq<Call>) {
    forall i :: 0 <= i < |calls| ==> calls[i].pem.Pem?
  }

  // The files after the first `n` calls, whether they succeed or fail.
  function FilesAfter(f: TrustFiles, calls: seq<Call>, n: nat): TrustFiles
    requires n <= |calls| && AllPem(calls)
  {
    if n == 0 then f else Ensure(FilesAfter(f, calls, n - 1), calls[n - 1]).files
  }

  predicate SucceedsAt(f: TrustFiles, calls: seq<Call>, i: nat)
    requires i < |calls| && AllPem(calls)
  {
    Ensure(FilesAfter(f, calls, i), calls[i]).ok
  }

  // Which of the calls succeed.
  function Successes(f: TrustFiles, calls: seq<Call>): seq<bool>
    requires AllPem(calls)
  {
    seq(|calls|, i requires 0 <= i < |calls| => SucceedsAt(f, calls, i))
  }

  // The last true entry before `n`.
  function LastTrue(oks: seq<bool>, n: nat): (r: Option<nat>)
    requires n <= |oks|
    ensures r.Some? ==> r.value < n && oks[r.value] && forall i :: r.value < i < n ==> !oks[i]
    ensures r.None? ==> forall i :: 0 <= i < n ==> !oks[i]
  {
    if n == 0 then None else if oks[n - 1] then Some(n - 1) else LastTrue(oks, n - 1)
  }

  // The first true entry at or behind `n` continues the series.
  lemma {:induction false} NextTrue(oks: seq<bool>, n: nat, j: nat) returns (first: nat)
    requires n <= j < |oks| && oks[j]
    ensures n <= first <= j && oks[first] && LastTrue(oks, first) == LastTrue(oks, n)
    decreases j - n
  {
    if oks[n] {
      first := n;
    } else {
      first := NextTrue(oks, n + 1, j);
    }
  }

  // Calls for one site that end one after the other.
  predicate SiteCalls(calls: seq<Call>, sni: string) {
    && (forall i :: 0 <= i < |calls| ==> ValidCall(calls[i]) && calls[i].sni == sni)
    && (forall i, j :: 0 <= i < j < |calls| ==> calls[i].end <= calls[j].end)
  }

  // Successive successful calls: each ends within 30 days of the check of the one before. Any number of calls in
  // between may fail, at any file operation.
  predicate SuccessesAreClose(calls: seq<Call>, oks: seq<bool>)
    requires |oks| == |calls|
  {
    forall j :: 0 <= j < |calls| && oks[j] ==>
      var last := LastTrue(oks, j); last.Some? ==> calls[j].end <= calls[last.value].start + RENEW_WINDOW
  }

  predicate Covers(file: CertFile, sni: string, from: int, until: int) {
    && file.Holds? && file.cert.sans == [sni] && file.cert.serverAuth
    && file.cert.notBefore <= from && until <= file.cert.notAfter
  }

  // The check of the call finds the server certificate due for rotation.
  predicate Due(f: TrustFiles, call: Call) {
    NeedsRotation(f.server, call.pem, Some([call.sni]), call.start).Rotate?
  }

  // The call gets as far as writing a new server certificate.
  predicate Writes(f: TrustFiles, call: Call) {
    PastCa(f, call) && Due(f, call) && call.caLoads && call.serverCertOk
  }

  // What any call does to the server's files.
  lemma ServerFilesAfter(f: TrustFiles, call: Call)
    requires ValidCall(call)
    ensures Ensure(f, call).files.server == if Writes(f, call) then Holds(ServerCert(call)) else f.server
    ensures Ensure(f, call).files.serverKey ==
            if Writes(f, call) && call.serverKeyOk then Some(call.serverKeyId) else f.serverKey
  {
    if PastCa(f, call) {
      var s := ServerHalf(f.(ca := CaAfter(f, call)), call);
      assert Ensure(f, call).files.server == s.files.server && Ensure(f, call).files.serverKey == s.files.serverKey;
    }
  }

  // The call gets as far as writing a new ingestor certificate: the server half is through, the old one is due.
  predicate WritesIngestor(f: TrustFiles, call: Call) {
    && PastCa(f, call)
    && !NeedsRotation(f.server, call.pem, Some([call.sni]), call.start).CheckFails?
    && (Due(f, call) ==> call.caLoads && call.serverCertOk && call.serverKeyOk)
    && NeedsRotation(f.ingestor, call.pem, None, call.start).Rotate? && call.caLoads && call.ingestorCertOk
  }

  // What any call does to the ingestor's files: they change only then, to a certificate for 365 days from five minutes
  // before the issuing, not for server authentication, and to the key that belongs to it.
  lemma IngestorFilesAfter(f: TrustFiles, call: Call)
    requires ValidCall(call)
    ensures var after, from := Ensure(f, call).files, call.end - 300;
            && after.ingestor == (if WritesIngestor(f, call)
                 then Holds(Cert(call.pem.ca.id, from, from + 365 * 86400, [], false, call.ingestorKeyId))
                 else f.ingestor)
            && after.ingestorKey == (if WritesIngestor(f, call) && call.ingestorKeyOk
                 then Some(call.ingestorKeyId)
                 else f.ingestorKey)
            && (Ensure(f, call).ingestorRotated <==> WritesIngestor(f, call) && call.ingestorKeyOk)
  {
  }

  // The certificate that a call issues for the server: by the CA of the call, for at least ten years of 365 days from
  // five minutes before the issuing, for the one name, with the key of the call.
  lemma IssuedServerCert(call: Call)
    requires ValidCall(call)
    ensures var c := ServerCert(call);
            && c.issuer == call.pem.ca.id && c.sans == [call.sni] && c.serverAuth && c.key == call.serverKeyId
            && c.notBefore == call.end - 300 && c.notAfter >= call.end - 300 + 10 * 365 * 86400
  {
  }

  // No call, however it fails, spoils the cover that an earlier one has left.
  lemma CallKeepsCover(f: TrustFiles, call: Call, from: int, until: int)
    requires ValidCall(call) && Covers(f.server, call.sni, from, until)
    requires from <= call.end && until <= call.end + RENEW_WINDOW
    ensures Covers(Ensure(f, call).files.server, call.sni, call.end, until)
  {
    ServerFilesAfter(f, call);
  }

  lemma SuccessCovers(f: TrustFiles, call: Call)
    requires ValidCall(call) && Ensure(f, call).ok
    ensures Covers(Ensure(f, call).files.server, call.sni, call.end, call.start + RENEW_WINDOW)
  {
    CallLeavesThirtyDays(f, call);
    ServerFilesAfter(f, call);
  }

  // What a successful call leaves is good for 30 days from its check, through any further calls.
  lemma {:induction false} CoverLasts(f: TrustFiles, calls: seq<Call>, sni: string, k: nat, n: nat)
    requires SiteCalls(calls, sni) && AllPem(calls) && k < n <= |calls| && SucceedsAt(f, calls, k)
    ensures Covers(FilesAfter(f, calls, n).server, sni, calls[n - 1].end, calls[k].start + RENEW_WINDOW)
    decreases n
  {
    if n == k + 1 {
      SuccessCovers(FilesAfter(f, calls, k), calls[k]);
    } else {
      CoverLasts(f, calls, sni, k, n - 1);
      assert calls[k].end <= calls[n - 1].end && calls[n - 2].end <= calls[n - 1].end;
      CallKeepsCover(FilesAfter(f, calls, n - 1), calls[n - 1], calls[n - 2].end, calls[k].start + RENEW_WINDOW);
    }
  }

  lemma StillInWindow(calls: seq<Call>, oks: seq<bool>, sni: string, n: nat, now: int)
    requires |oks| == |calls| && SiteCalls(calls, sni) && SuccessesAreClose(calls, oks)
    requires 0 < n <= |calls| && LastTrue(oks, n).Some? && (n < |calls| ==> now <= calls[n].end)
    requires now <= calls[LastTrue(oks, n).value].start + RENEW_WINDOW || exists j :: n <= j < |calls| && oks[j]
    ensures now <= calls[LastTrue(oks, n).value].start + RENEW_WINDOW
  {
    if j :| n <= j < |calls| && oks[j] {
      var first := NextTrue(oks, n, j);
      assert calls[n].end <= calls[first].end;
    }
  }

  // Main theorem: if successive successful calls are less than 30 days apart, whatever fails between them, then at
  // every instant from the end of the first successful one up to 30 days after the check of the last one the server
  // certificate on disk is unexpired and carries exactly the required name. At `now`, `n` calls have ended.
  lemma NeverSeenExpired(f: TrustFiles, calls: seq<Call>, sni: string, n: nat, now: int)
    requires SiteCalls(calls, sni) && AllPem(calls) && SuccessesAreClose(calls, Successes(f, calls))
    requires 0 < n <= |calls| && LastTrue(Successes(f, calls), n).Some?
    requires calls[n - 1].end <= now && (n < |calls| ==> now <= calls[n].end)
    requires || now <= calls[LastTrue(Successes(f, calls), n).value].start + RENEW_WINDOW
             || exists j :: n <= j < |calls| && Successes(f, calls)[j]
    ensures ServesAt(FilesAfter(f, calls, n).server, sni, now)
  {
    var k := LastTrue(Successes(f, calls), n).value;
    StillInWindow(calls, Successes(f, calls), sni, n, now);
    CoverLasts(f, calls, sni, k, n);
  }

  // When a call after a successful one finds the server certificate due again: exactly if the CA is not valid then,
  // or if the certificate has come within 30 days of its end.
  lemma NextCallRotatesIff(f: TrustFiles, call: Call, next: Call)
    requires ValidCall(call) && ValidCall(next) && next.sni == call.sni && next.pem == call.pem
    requires call.end <= next.start && Ensure(f, call).ok
    ensures Due(Ensure(f, call).files, next) <==>
            || !(call.pem.ca.notBefore <= next.start <= call.pem.ca.notAfter)
            || next.start >= Ensure(f, call).files.server.cert.notAfter - RENEW_WINDOW
    ensures var second := Ensure(Ensure(f, call).files, next);
            second.ok ==> (second.serverRotated <==> Due(Ensure(f, call).files, next))
  {
    CallLeavesThirtyDays(f, call);
    SuccessCovers(f, call);
    if Ensure(Ensure(f, call).files, next).ok {
      SuccessReports(Ensure(f, call).files, next);
    }
  }

  lemma SuccessReports(f: TrustFiles, call: Call)
    requires ValidCall(call) && Ensure(f, call).ok
    ensures Ensure(f, call).serverRotated <==> Due(f, call)
  {
  }

  // While the CA is valid an immediate second call does not touch the server's files, whether it succeeds or fails.
  lemma SecondCallIsQuiet(f: TrustFiles, call: Call, next: Call)
    requires ValidCall(call) && ValidCall(next) && next.sni == call.sni && next.pem == call.pem
    requires call.end == call.start == next.start && call.pem.ca.notBefore <= next.start <= call.pem.ca.notAfter
    requires Ensure(f, call).ok
    ensures var f1 := Ensure(f, call).files;
            && !Ensure(f1, next).serverRotated
            && Ensure(f1, next).files.server == f1.server && Ensure(f1, next).files.serverKey == f1.serverKey
  {
    CallLeavesThirtyDays(f, call);
    NextCallRotatesIff(f, call, next);
    ServerFilesAfter(Ensure(f, call).files, next);
  }

  // ---- What rotation does not give ----

  // Nothing but the issuing code has written the ingestor certificate.
  predicate OwnIngestor(f: TrustFiles) {
    f.ingestor.Holds? ==> !f.ingestor.cert.serverAuth
  }

  lemma IngestorRotates(f: TrustFiles, call: Call)
    requires OwnIngestor(f) && call.pem.Pem?
    ensures OwnIngestor(Ensure(f, call).files) && (Ensure(f, call).ok ==> Ensure(f, call).ingestorRotated)
  {
  }

  // The ingestor certificate is checked for ServerAuth, which it is never issued with: every successful call of
  // every run replaces it, however fresh it is.
  lemma {:induction false} IngestorRotatesEveryTime(f: TrustFiles, calls: seq<Call>, k: nat)
    requires OwnIngestor(f) && k < |calls| && AllPem(calls)
    ensures var before := FilesAfter(f, calls, k);
            OwnIngestor(before) && (Ensure(before, calls[k]).ok ==> Ensure(before, calls[k]).ingestorRotated)
  {
    if k > 0 {
      IngestorRotatesEveryTime(f, calls, k - 1);
      IngestorRotates(FilesAfter(f, calls, k - 1), calls[k - 1]);
    }
    IngestorRotates(FilesAfter(f, calls, k), calls[k]);
  }

  // ---- The server key ----

  predicate KeyMatches(f: TrustFiles) {
    f.server.Holds? && f.serverKey == Some(f.server.cert.key)
  }

  // The key after any call, successful or not: it fits exactly if it fitted and the call left server.crt alone, or
  // if the call wrote the certificate and then the key too (or the same key was there already).
  lemma KeyMatchesIff(f: TrustFiles, call: Call)
    requires ValidCall(call)
    ensures KeyMatches(Ensure(f, call).files) <==>
            if Writes(f, call) then call.serverKeyOk || f.serverKey == Some(call.serverKeyId) else KeyMatches(f)
    ensures Ensure(f, call).ok ==> (KeyMatches(Ensure(f, call).files) <==> Due(f, call) || KeyMatches(f))
  {
    ServerFilesAfter(f, call);
  }

  // The call at `i` finds the certificate due.
  predicate DueAt(f: TrustFiles, calls: seq<Call>, i: nat)
    requires i < |calls| && AllPem(calls)
  {
    Due(FilesAfter(f, calls, i), calls[i])
  }

  predicate MatchesAt(f: TrustFiles, calls: seq<Call>, n: nat)
    requires n <= |calls| && AllPem(calls)
  {
    KeyMatches(FilesAfter(f, calls, n))
  }

  lemma KeyStep(f: TrustFiles, calls: seq<Call>, i: nat)
    requires i < |calls| && AllPem(calls) && ValidCall(calls[i]) && SucceedsAt(f, calls, i)
    ensures MatchesAt(f, calls, i + 1) <==> DueAt(f, calls, i) || MatchesAt(f, calls, i)
  {
    KeyMatchesIff(FilesAfter(f, calls, i), calls[i]);
  }

  predicate FirstSucceed(f: TrustFiles, calls: seq<Call>, n: nat)
    requires n <= |calls| && AllPem(calls)
  {
    n == 0 || (FirstSucceed(f, calls, n - 1) && ValidCall(calls[n - 1]) && SucceedsAt(f, calls, n - 1))
  }

  // One of the first `n` calls finds the certificate due.
  predicate EverDue(f: TrustFiles, calls: seq<Call>, n: nat)
    requires n <= |calls| && AllPem(calls)
  {
    n > 0 && (EverDue(f, calls, n - 1) || DueAt(f, calls, n - 1))
  }

  // Over runs of successful calls a missing key comes back if and only if the certificate falls due at one of them.
  lemma {:induction false} KeyRecoversIff(f: TrustFiles, calls: seq<Call>, n: nat)
    requires n <= |calls| && AllPem(calls) && FirstSucceed(f, calls, n)
    ensures MatchesAt(f, calls, n) <==> MatchesAt(f, calls, 0) || EverDue(f, calls, n)
  {
    if n > 0 {
      KeyRecoversIff(f, calls, n - 1);
      KeyStep(f, calls, n - 1);
    }
  }

  // The certificate file is good for `call`: nothing is due.
  predicate Keeps(file: CertFile, call: Call) {
    && file.Holds? && call.pem.Pem? && Verifies(file.cert, call.pem.ca, call.start)
    && call.start + RENEW_WINDOW < file.cert.notAfter && file.cert.sans == [call.sni]
  }

  // So while its certificate is good a lost key stays lost, over any number of calls, successful or not.
  lemma {:induction false} LostKeyStaysLost(f: TrustFiles, calls: seq<Call>, n: nat)
    requires n <= |calls| && AllPem(calls) && !KeyMatches(f)
    requires forall i :: 0 <= i < n ==> ValidCall(calls[i]) && Keeps(f.server, calls[i])
    ensures FilesAfter(f, calls, n).server == f.server && !KeyMatches(FilesAfter(f, calls, n))
  {
    if n > 0 {
      LostKeyStaysLost(f, calls, n - 1);
      KeyMatchesIff(FilesAfter(f, calls, n - 1), calls[n - 1]);
    }
  }

  const EMPTY_DIR := TrustFiles(CaMissing, Missing, None, Missing, None)

  // How a key gets lost: in an empty directory a first call writes server.crt and fails at server.key; the next one
  // succeeds as long as nothing is wrong with the certificate, and leaves it without its key.
  lemma LostKeyGoesUnnoticed(first: Call, second: Call)
    requires ValidCall(first) && ValidCall(second) && second.pem == first.pem && second.sni == first.sni
    requires first.mkdirOk && first.caWrite == Done && first.caLoads && first.serverCertOk && !first.serverKeyOk
    requires second.mkdirOk && second.caLoads && second.ingestorCertOk && second.ingestorKeyOk
    requires first.end <= second.start < first.end - CLOCK_SKEW + first.ttl - RENEW_WINDOW
    requires first.pem.ca.notBefore <= second.start <= first.pem.ca.notAfter
    ensures var f1 := Ensure(EMPTY_DIR, first).files;
            && !Ensure(EMPTY_DIR, first).ok && f1.server == Holds(ServerCert(first)) && f1.serverKey == None
            && Ensure(f1, second).ok && Ensure(f1, second).files.server == f1.server
            && !KeyMatches(Ensure(f1, second).files)
  {
    var f1 := Ensure(EMPTY_DIR, first).files;
    assert f1 == EMPTY_DIR.(ca := CaHolds(first.pem), server := Holds(ServerCert(first)));
    assert ServerHalf(f1, second) == Result(f1, true, false, false);
  }

  // ---- The CA certificate ----

  // ca.crt is the configured CA after a call exactly if it was before, or if nothing was there and the call wrote it.
  lemma CaCurrentIff(f: TrustFiles, call: Call)
    requires ValidCall(call)
    ensures Ensure(f, call).files.ca == CaHolds(call.pem) <==>
            f.ca == CaHolds(call.pem) || (f.ca == CaMissing && call.mkdirOk && call.caWrite == Done)
    ensures Ensure(f, call).files.ca == if call.mkdirOk then CaAfter(f, call) else f.ca
  {
    if PastCa(f, call) {
      var f1 := f.(ca := CaAfter(f, call));
      assert ServerHalf(f1, call).files.ca == f1.ca;
    }
  }

  // So a ca.crt that is there stays, torn or of a former CA, through any further calls, successful or not: in no
  // run is it the configured CA again.
  lemma {:induction false} CaFileIsNeverRepaired(f: TrustFiles, calls: seq<Call>, n: nat)
    requires n <= |calls| && AllPem(calls) && f.ca != CaMissing
    requires forall i :: 0 <= i < n ==> ValidCall(calls[i])
    ensures FilesAfter(f, calls, n).ca == f.ca
  {
    if n > 0 {
      CaFileIsNeverRepaired(f, calls, n - 1);
      CaCurrentIff(FilesAfter(f, calls, n - 1), calls[n - 1]);
    }
  }

  // A torn one does not keep calls from succeeding.
  lemma TornCaGoesUnnoticed(first: Call, second: Call)
    requires ValidCall(first) && ValidCall(second) && second.pem == first.pem
    requires first.mkdirOk && first.caWrite == Torn && second.mkdirOk && second.caLoads
    requires second.serverCertOk && second.serverKeyOk && second.ingestorCertOk && second.ingestorKeyOk
    ensures var f1 := Ensure(EMPTY_DIR, first).files;
            f1.ca == CaTorn && Ensure(f1, second).ok && Ensure(f1, second).files.ca == CaTorn
  {
    var f1 := Ensure(EMPTY_DIR, first).files;
    assert f1 == EMPTY_DIR.(ca := CaTorn);
    assert ServerHalf(f1, second).ok;
  }

  // ---- The directory of one site as the source handles it ----

  class TrustDir {
    var ca: CaFile
    var server: CertFile
    var serverKey: Option<int>
    var ingestor: CertFile
    var ingestorKey: Option<int>

    constructor ()
      ensures Contents() == TrustFiles(CaMissing, Missing, None, Missing, None)
    {
      ca, server, serverKey, ingestor, ingestorKey := CaMissing, Missing, None, Missing, None;
    }

    function Contents(): TrustFiles
      reads this
    {
      TrustFiles(ca, server, serverKey, ingestor, ingestorKey)
    }

    // NeedsRotation as a decision chain over one file.
    method Check(file: CertFile, pem: CaPem, requiredSans: Option<seq<string>>, now: int) returns (v: Verdict)
      ensures v == NeedsRotation(file, pem, requiredSans, now)
    {
      if file.ReadError? {
        return CheckFails;
      }
      if file.Missing? || file.Corrupt? {
        return Rotate(ReasonMissing);
      }
      var c := file.cert;
      if pem != NoPem {
        if pem.BadPem? {
          return CheckFails;
        }
        if !Verifies(c, pem.ca, now) {
          return Rotate(ReasonCaMismatch);
        }
      }
      if c.notAfter - now <= RENEW_WINDOW {
        return Rotate(ReasonExpiring);
      }
      if requiredSans.Some? {
        var same := SanSetsEqual(c.sans, requiredSans.value);
        if !same {
          return Rotate(ReasonSanDrift);
        }
      }
      v := Fine;
    }

    method EnsureTrustFiles(call: Call) returns (ok: bool, serverRotated: bool, ingestorRotated: bool)
      requires call.pem.Pem?
      modifies this
      ensures var r := Ensure(old(Contents()), call);
              && Contents() == r.files && ok == r.ok
              && (ok ==> serverRotated == r.serverRotated && ingestorRotated == r.ingestorRotated)
    {
      ok, serverRotated, ingestorRotated := false, false, false;
      if !call.mkdirOk {
        return;
      }
      if ca == CaMissing {
        match call.caWrite {
          case Done => ca := CaHolds(call.pem);
          case Refused => return;
          case Torn => ca := CaTorn; return;
        }
      }
      var serverVerdict := Check(server, call.pem, Some([call.sni]), call.start);
      if serverVerdict == CheckFails {
        return;
      }
      if serverVerdict.Rotate? {
        if !call.caLoads || !call.serverCertOk {
          return;
        }
        server := Holds(ServerCert(call));
        if !call.serverKeyOk {
          return;
        }
        serverKey := Some(call.serverKeyId);
        serverRotated := true;
      }
      var ingestorVerdict := Check(ingestor, call.pem, None, call.start);
      if ingestorVerdict == CheckFails {
        return;
      }
      if ingestorVerdict.Rotate? {
        if !call.caLoads || !call.ingestorCertOk {
          return;
        }
        ingestor := Holds(IngestorCert(call));
        if !call.ingestorKeyOk {
          return;
        }
        ingestorKey := Some(call.ingestorKeyId);
        ingestorRotated := true;
      }
      ok := true;
    }
  }
}
