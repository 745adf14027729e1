/**
 Certificate rotation for the webhook server, internal/webhookcert: a CA in a secret, a server
 certificate on disk, and the CA bundle in every webhook configuration.

 Keys are identities; a certificate is signed by one. Validity is as in section 4.1.2.5 of
 RFC 5280, with whole seconds; path validation, section 6.1, is "signed by this CA, and both
 certificates within their validity".
 */
module WebhookCert {
  import opened Common

  /** Times and durations in nanoseconds. */
  const SECOND: int := 1_000_000_000
  const HOUR: int := 3600 * SECOND
  const DAY: int := 24 * HOUR

  const CA_SOFT_EXPIRY: int := 30 * DAY
  const SERVER_SOFT_EXPIRY: int := DAY
  const CA_CERT_MAX_AGE: int := 365 * DAY
  const SERVER_CERT_MAX_AGE: int := 7 * DAY
  const CLOCK_SKEW: int := HOUR

  const CA_CERT_FILE := "ca.crt"
  const CA_KEY_FILE := "ca.key"
  const WEBHOOK_SERVICE_PORT := 443

  datatype Cert = Cert(key: nat, signer: nat, notBefore: int, notAfter: int)

  /** A PEM text: a certificate, a private key with its length in bits, or neither. */
  datatype Pem = CertPem(cert: Cert) | KeyPem(key: nat, bits: nat) | Garbage(text: string)

  /** Certificates carry whole seconds. */
  function Truncated(t: int): int {
    t - t % SECOND
  }

  function IssuedAt(now: int, key: nat, signer: nat, maxAge: int): Cert {
    Cert(key, signer, Truncated(now - CLOCK_SKEW), Truncated(now - CLOCK_SKEW + maxAge))
  }

  /** checkExpiry: not yet within the offset of the end of validity. An unparsable text is expired. */
  predicate FarFromExpiry(pem: Pem, offset: int, now: int) {
    pem.CertPem? && now < pem.cert.notAfter - offset
  }

  predicate InValidity(c: Cert, now: int) {
    c.notBefore <= now <= c.notAfter
  }

  predicate ChainsTo(server: Pem, ca: Pem, now: int) {
    && server.CertPem? && ca.CertPem? && server.cert.signer == ca.cert.key
    && InValidity(server.cert, now) && InValidity(ca.cert, now)
  }

  type SecretData = map<string, Pem>

  /** checkCASecret. */
  predicate CaSecretUsable(data: SecretData, keySize: nat, now: int) {
    && CA_CERT_FILE in data && CA_KEY_FILE in data
    && FarFromExpiry(data[CA_CERT_FILE], CA_SOFT_EXPIRY, now)
    && data[CA_KEY_FILE].KeyPem? && data[CA_KEY_FILE].bits == keySize
  }

  datatype Webhook = Webhook(name: string, caBundle: Pem)

  datatype Conversion = Conversion(service: NamespacedName, path: string, port: int,
                                   caBundle: Pem, reviewVersions: seq<string>)

  function ConversionConfig(caBundle: Pem, service: NamespacedName): Conversion {
    Conversion(service, "/convert", WEBHOOK_SERVICE_PORT, caBundle, ["v1"])
  }

  /** The same webhooks, each with this bundle. */
  predicate Rebundled(hooks: seq<Webhook>, r: seq<Webhook>, caBundle: Pem) {
    |r| == |hooks| && forall i :: 0 <= i < |hooks| ==> r[i] == Webhook(hooks[i].name, caBundle)
  }

  /** The conversion webhook of a CRD calls this service, and trusts this bundle. */
  predicate ConvertsAt(crd: Option<Conversion>, service: NamespacedName, caBundle: Pem) {
    && crd.Some? && crd.value.service == service && crd.value.caBundle == caBundle
    && crd.value.path == "/convert" && crd.value.port == 443 && crd.value.reviewVersions == ["v1"]
  }

  predicate AllCarry(hooks: seq<Webhook>, caBundle: Pem) {
    forall i :: 0 <= i < |hooks| ==> hooks[i].caBundle == caBundle
  }

  // ---------------------------------------------------------------- the world

  /** Cluster and disk. The server certificate and its key are two files, written one after the other. */
  class World {
    var caSecret: Option<SecretData>
    var certFile: Option<Pem>
    var keyFile: Option<Pem>
    var validating: seq<Webhook>
    var mutating: seq<Webhook>
    var logCrd: Option<Conversion>
    var metricCrd: Option<Conversion>
    /** Whether calls to the API server and the disk may fail. */
    const faulty: bool
    /** How many calls have failed; reading the two files is not counted. */
    var failures: nat
    /** Keys from here on have not been generated yet. */
    var nextKey: nat
    /** No call so far took 23 days or longer. */
    ghost var timely: bool
    /** The last save that wrote anything broke off between its two files. */
    ghost var torn: bool

    constructor (validating: seq<Webhook>, mutating: seq<Webhook>, faulty: bool)
      ensures Inv() && caSecret == None && certFile == None && keyFile == None && timely && !torn
      ensures this.validating == validating && this.mutating == mutating && this.faulty == faulty
    {
      caSecret, certFile, keyFile := None, None, None;
      this.validating, this.mutating, logCrd, metricCrd := validating, mutating, None, None;
      nextKey, timely, torn, failures := 0, true, false, 0;
      this.faulty := faulty;
    }

    /** A CA certificate with its own key. */
    predicate CaStored()
      reads this`caSecret
    {
      && caSecret.Some? && CA_CERT_FILE in caSecret.value && CA_KEY_FILE in caSecret.value
      && caSecret.value[CA_CERT_FILE].CertPem? && caSecret.value[CA_KEY_FILE].KeyPem?
      && caSecret.value[CA_KEY_FILE].key == caSecret.value[CA_CERT_FILE].cert.key
    }

    function Ca(): Cert
      requires CaStored()
      reads this`caSecret
    {
      caSecret.value[CA_CERT_FILE].cert
    }

    predicate ServerStored()
      reads this`certFile
    {
      certFile.Some? && certFile.value.CertPem?
    }

    function Server(): Cert
      requires ServerStored()
      reads this`certFile
    {
      certFile.value.cert
    }

    predicate KeyFits()
      reads this`certFile, this`keyFile
    {
      ServerStored() && keyFile.Some? && keyFile.value.KeyPem? && keyFile.value.key == Server().key
    }

    ghost predicate CaInv()
      reads this`caSecret, this`nextKey
    {
      caSecret.Some? ==> CaStored() && Ca().signer == Ca().key < nextKey
    }

    /** What is on the disk: the key file fits the certificate exactly if no save broke off. */
    ghost predicate DiskInv()
      reads this`certFile, this`keyFile, this`nextKey, this`torn
    {
      && (certFile.Some? ==> && ServerStored() && Server().signer < nextKey && Server().key < nextKey
                             && (KeyFits() <==> !torn))
      && (keyFile.Some? ==> certFile.Some? && keyFile.value.KeyPem? && keyFile.value.key < nextKey)
      && (torn ==> certFile.Some?)
    }

    /** A server certificate does not outlive the CA that signed it. */
    predicate WithinCa()
      reads this`caSecret, this`certFile
    {
      CaStored() && ServerStored() && Server().signer == Ca().key ==> Server().notAfter <= Ca().notAfter
    }

    /** What every call keeps, failed ones included. */
    ghost predicate Inv()
      reads this`caSecret, this`certFile, this`keyFile, this`nextKey, this`timely, this`torn
    {
      CaInv() && DiskInv() && (timely ==> WithinCa())
    }

    /** The stored certificates after the providers of a call that began at `start` and ended at `finish`. */
    ghost predicate Issued(start: int, finish: int)
      reads this`caSecret, this`certFile, this`keyFile, this`timely, this`torn
    {
      && CaStored() && Ca().signer == Ca().key && Ca().notAfter - 30 * DAY > start
      && ServerStored() && Server().signer == Ca().key && Server().notAfter - 1 * DAY > start
      && Server().notBefore <= finish && (timely ==> Server().notAfter <= Ca().notAfter)
      && (KeyFits() <==> !torn)
    }

    /** After a successful call. */
    ghost predicate Up(start: int, finish: int, service: NamespacedName)
      reads this
    {
      && Issued(start, finish)
      && AllCarry(validating, CertPem(Ca())) && AllCarry(mutating, CertPem(Ca()))
      && ConvertsAt(logCrd, service, CertPem(Ca())) && ConvertsAt(metricCrd, service, CertPem(Ca()))
    }

    /** A CA of the right key length with more than 30 days left at `finish`. */
    predicate CaGood(keySize: nat, finish: int)
      reads this`caSecret
    {
      && CaStored() && caSecret.value[CA_KEY_FILE].bits == keySize && Ca().notAfter - 30 * DAY > finish
    }

    /** Both certificates are good for the whole call, so nothing needs to be issued. */
    predicate Settled(keySize: nat, start: int, finish: int)
      reads this`caSecret, this`certFile, this`keyFile
    {
      && CaGood(keySize, finish) && Ca().notBefore <= start
      && ServerStored() && keyFile.Some? && Server().signer == Ca().key
      && Server().notBefore <= start && Server().notAfter - 1 * DAY > finish
    }

    /** Whether the next call to the API server or the disk fails. */
    method Fails() returns (failed: bool)
      modifies this`failures
      ensures failed ==> faulty
      ensures failures == old(failures) + if failed then 1 else 0
    {
      failed :| failed ==> faulty;
      if failed {
        failures := failures + 1;
      }
    }

    /** Whether the files of the server certificate cannot be read. */
    method LoadFails() returns (failed: bool)
      ensures failed ==> faulty
    {
      failed :| failed ==> faulty;
    }

    /** A reading of the clock during a call. */
    method Clock(from: int, until: int) returns (now: int)
      requires from <= until
      ensures from <= now <= until
    {
      now :| from <= now <= until;
    }

    function CaFiles(): (Pem, Pem)
      requires CaStored()
      reads this`caSecret
    {
      (caSecret.value[CA_CERT_FILE], caSecret.value[CA_KEY_FILE])
    }

    /** The CA provider: returns certificate and key, or None on an API error. */
    method ProvideCaCert(keySize: nat, start: int, finish: int) returns (r: Option<(Pem, Pem)>, now: int)
      requires Inv() && start <= finish
      modifies this`caSecret, this`nextKey, this`failures
      ensures Inv() && start <= now <= finish && old(nextKey) <= nextKey
      ensures r.Some? ==> CaGood(keySize, now) && r.value == CaFiles()
      ensures r.Some? ==> && "ca.crt" in caSecret.value && "ca.key" in caSecret.value
                          && r.value == (caSecret.value["ca.crt"], caSecret.value["ca.key"])
      ensures failures >= old(failures) && (r.Some? <==> failures == old(failures)) && (!faulty ==> r.Some?)
      ensures r.None? || old(CaGood(keySize, finish)) ==> caSecret == old(caSecret)
    {
      now := Clock(start, finish);
      var failed := Fails();
      if failed {
        return None, now;
      }
      if caSecret.Some? && CaSecretUsable(caSecret.value, keySize, now) {
        return Some(CaFiles()), now;
      }
      now := Clock(now, finish);
      var ca := IssuedAt(now, nextKey, nextKey, CA_CERT_MAX_AGE);
      var key := KeyPem(nextKey, keySize);
      nextKey := nextKey + 1;
      failed := Fails();
      if failed {
        return None, now;
      }
      caSecret := Some(map[CA_CERT_FILE := CertPem(ca), CA_KEY_FILE := key]);
      r := Some((CertPem(ca), key));
    }

    /** Writes the certificate file and then the key file; a failure in between leaves the old key. */
    method Save(server: Cert, key: Pem) returns (ok: bool)
      modifies this`certFile, this`keyFile, this`torn, this`failures
      ensures failures >= old(failures) && (ok <==> failures == old(failures))
      ensures ok ==> certFile == Some(CertPem(server)) && keyFile == Some(key) && !torn
      ensures !ok ==>
                || (certFile == old(certFile) && keyFile == old(keyFile) && torn == old(torn))
                || (certFile == Some(CertPem(server)) && keyFile == old(keyFile) && torn)
      ensures !faulty ==> ok
    {
      var failed := Fails();
      if failed {
        return false;
      }
      certFile, torn := Some(CertPem(server)), true;
      failed := Fails();
      if failed {
        return false;
      }
      keyFile, torn := Some(key), false;
      ok := true;
    }

    /**
     The server certificate provider, for a CA that the provider above returned at `caTime`. It
     looks at the certificate only, so a torn pair is served again for as long as that is good;
     and it takes files it cannot read for missing ones, so a failed read replaces a good pair.
     */
    method ProvideServerCert(caPem: Pem, caKey: Pem, keySize: nat, start: int, finish: int, caTime: int)
      returns (ok: bool, ghost unread: bool)
      requires Inv() && start <= caTime <= finish && (timely ==> finish - start < 23 * DAY)
      requires CaStored() && (caPem, caKey) == CaFiles() && Ca().notAfter - 30 * DAY > caTime
      modifies this`certFile, this`keyFile, this`nextKey, this`torn, this`failures
      ensures Inv() && old(nextKey) <= nextKey
      ensures ok ==> && ServerStored() && Server().signer == Ca().key
                     && Server().notAfter - 1 * DAY > caTime && Server().notBefore <= finish
      ensures ok && certFile == old(certFile) ==> Ca().notBefore <= finish
      ensures failures >= old(failures) && (ok <==> failures == old(failures)) && (!faulty ==> ok)
      ensures ok && torn ==> !unread && old(torn) && certFile == old(certFile) && keyFile == old(keyFile)
      ensures unread ==> faulty && (ok ==> certFile != old(certFile) && keyFile != old(keyFile))
      ensures old(Settled(keySize, start, finish)) && !unread ==>
                certFile == old(certFile) && keyFile == old(keyFile) && torn == old(torn)
    {
      var loadFailed := LoadFails();
      unread := loadFailed;
      var now := Clock(caTime, finish);
      if !loadFailed && certFile.Some? && keyFile.Some? && FarFromExpiry(certFile.value, SERVER_SOFT_EXPIRY, now) {
        var later := Clock(now, finish);
        if ChainsTo(certFile.value, caPem, later) {
          return true, false;
        }
      }
      // A CA text that does not parse would fail here; the provider never returns one.
      ok := IssueServerCert(caKey, keySize, now, finish);
    }

    /** Generates and saves a certificate at some time from `now` on. */
    method IssueServerCert(caKey: Pem, keySize: nat, now: int, finish: int) returns (ok: bool)
      requires Inv() && now <= finish && CaStored() && caKey == CaFiles().1
      requires timely ==> finish + SERVER_CERT_MAX_AGE - CLOCK_SKEW <= Ca().notAfter
      modifies this`certFile, this`keyFile, this`nextKey, this`torn, this`failures
      ensures Inv() && old(nextKey) <= nextKey
      ensures ok ==> && ServerStored() && Server().signer == Ca().key && !torn
                     && Server().notAfter - 1 * DAY > now && Server().notBefore <= finish
                     && certFile != old(certFile) && keyFile != old(keyFile)
      ensures failures >= old(failures) && (ok <==> failures == old(failures)) && (!faulty ==> ok)
    {
      var issued := Clock(now, finish);
      var server := IssuedAt(issued, nextKey, caKey.key, SERVER_CERT_MAX_AGE);
      var key := KeyPem(nextKey, keySize);
      nextKey := nextKey + 1;
      ok := Save(server, key);
    }

    /** The loop of updateValidatingWebhookConfig and updateMutatingWebhookConfig. */
    static method SetBundles(hooks: seq<Webhook>, caBundle: Pem) returns (r: seq<Webhook>)
      ensures Rebundled(hooks, r, caBundle)
    {
      r := hooks;
      for i := 0 to |hooks|
        invariant |r| == |hooks|
        invariant forall j :: 0 <= j < |r| ==> r[j] == if j < i then hooks[j].(caBundle := caBundle) else hooks[j]
      {
        r := r[i := r[i].(caBundle := caBundle)];
      }
    }

    /** applyWebhookConfigResources; any of its four updates may fail and end it. */
    method ApplyWebhookConfigResources(caBundle: Pem, service: NamespacedName) returns (ok: bool)
      modifies this`validating, this`mutating, this`logCrd, this`metricCrd, this`failures
      ensures failures >= old(failures) && (ok <==> failures == old(failures)) && (!faulty ==> ok)
      ensures ok ==> && Rebundled(old(validating), validating, caBundle)
                     && Rebundled(old(mutating), mutating, caBundle)
                     && ConvertsAt(logCrd, service, caBundle) && ConvertsAt(metricCrd, service, caBundle)
    {
      var failed := Fails();
      if failed {
        return false;
      }
      validating := SetBundles(validating, caBundle);
      failed := Fails();
      if failed {
        return false;
      }
      mutating := SetBundles(mutating, caBundle);
      failed := Fails();
      if failed {
        return false;
      }
      logCrd := Some(ConversionConfig(caBundle, service));
      failed := Fails();
      if failed {
        return false;
      }
      metricCrd := Some(ConversionConfig(caBundle, service));
      ok := true;
    }

    /** `unread` says that the files of the server certificate could not be read. */
    method EnsureCertificate(keySize: nat, service: NamespacedName, start: int, finish: int)
      returns (ok: bool, ghost unread: bool)
      requires Inv() && start <= finish
      modifies this
      ensures Inv() && (timely <==> old(timely) && finish - start < 23 * DAY)
      ensures ok ==> Up(start, finish, service)
      ensures failures >= old(failures) && (ok <==> failures == old(failures)) && (!faulty ==> ok && !unread)
      ensures ok ==> && Rebundled(old(validating), validating, CertPem(Ca()))
                     && Rebundled(old(mutating), mutating, CertPem(Ca()))
      ensures ok ==> caSecret.value[CA_KEY_FILE].bits == keySize
      ensures ok && certFile == old(certFile) ==> Ca().notBefore <= finish
      ensures ok && torn ==> !unread && old(torn) && certFile == old(certFile) && keyFile == old(keyFile)
      ensures ok && unread ==> certFile != old(certFile) && keyFile != old(keyFile)
      ensures old(Settled(keySize, start, finish)) ==> caSecret == old(caSecret)
      ensures old(Settled(keySize, start, finish)) && !unread ==>
                certFile == old(certFile) && keyFile == old(keyFile) && torn == old(torn)
    {
      timely := timely && finish - start < 23 * DAY;
      var caCert;
      caCert, unread := ProvideCertificates(keySize, start, finish);
      if caCert.None? {
        return false, unread;
      }
      ok := ApplyWebhookConfigResources(caCert.value, service);
    }

    /** The first two steps of EnsureCertificate: returns the CA certificate. */
    method ProvideCertificates(keySize: nat, start: int, finish: int) returns (r: Option<Pem>, ghost unread: bool)
      requires Inv() && start <= finish && (timely ==> finish - start < 23 * DAY)
      modifies this`caSecret, this`certFile, this`keyFile, this`nextKey, this`torn, this`failures
      ensures Inv()
      ensures r.Some? ==> Issued(start, finish) && r.value == CertPem(Ca())
      ensures r.Some? ==> caSecret.value[CA_KEY_FILE].bits == keySize
      ensures r.Some? && certFile == old(certFile) ==> Ca().notBefore <= finish
      ensures failures >= old(failures) && (r.Some? <==> failures == old(failures)) && (!faulty ==> r.Some? && !unread)
      ensures r.Some? && torn ==> !unread && old(torn) && certFile == old(certFile) && keyFile == old(keyFile)
      ensures r.Some? && unread ==> certFile != old(certFile) && keyFile != old(keyFile)
      ensures old(Settled(keySize, start, finish)) ==> caSecret == old(caSecret)
      ensures old(Settled(keySize, start, finish)) && !unread ==>
                certFile == old(certFile) && keyFile == old(keyFile) && torn == old(torn)
    {
      unread := false;
      var caPair, now := ProvideCaCert(keySize, start, finish);
      if caPair.None? {
        return None, false;
      }
      var served;
      served, unread := ProvideServerCert(caPair.value.0, caPair.value.1, keySize, start, finish, now);
      if !served {
        return None, unread;
      }
      r := Some(caPair.value.0);
    }

    /** Any number of calls, each with its begin and end, some of which may fail; the last one decides. */
    method Run(keySize: nat, service: NamespacedName, calls: seq<(int, int)>) returns (last: bool)
      requires Inv() && forall i :: 0 <= i < |calls| ==> calls[i].0 <= calls[i].1
      modifies this
      ensures Inv()
      ensures !faulty && calls != [] ==> last && (!old(torn) ==> !torn)
      ensures last ==> calls != [] && Up(calls[|calls| - 1].0, calls[|calls| - 1].1, service)
      ensures old(timely) && (forall i :: 0 <= i < |calls| ==> calls[i].1 - calls[i].0 < 23 * DAY) ==> timely
    {
      last := false;
      for i := 0 to |calls|
        invariant Inv()
        invariant !faulty ==> (i > 0 ==> last) && (!old(torn) ==> !torn)
        invariant last ==> i > 0 && Up(calls[i - 1].0, calls[i - 1].1, service)
        invariant old(timely) && (forall j :: 0 <= j < i ==> calls[j].1 - calls[j].0 < 23 * DAY) ==> timely
      {
        ghost var unread;
        last, unread := EnsureCertificate(keySize, service, calls[i].0, calls[i].1);
      }
    }
  }

  /**
   A CA and a first pair are in place; a call that cannot read the files issues a second
   certificate, and its save breaks off ahead of the key file.
   */
  method TornWorld(keySize: nat, now: int) returns (w: World)
    ensures fresh(w) && !w.faulty && w.Inv() && w.torn && w.Settled(keySize, now, now)
  {
    w := new World([], [], false);
    var ca, first := IssuedAt(now, 0, 0, CA_CERT_MAX_AGE), IssuedAt(now, 1, 0, SERVER_CERT_MAX_AGE);
    w.caSecret := Some(map[CA_CERT_FILE := CertPem(ca), CA_KEY_FILE := KeyPem(0, keySize)]);
    w.certFile, w.keyFile, w.nextKey := Some(CertPem(first)), Some(KeyPem(1, keySize)), 2;
    assert w.Inv() && !w.torn;
    var second := IssuedAt(now, w.nextKey, 0, SERVER_CERT_MAX_AGE);
    w.certFile, w.nextKey, w.torn := Some(CertPem(second)), w.nextKey + 1, true;
  }

  /** The next call meets no fault and succeeds, and the key still does not fit. */
  method ServesTornPair(keySize: nat, service: NamespacedName, now: int) returns (w: World, ok: bool)
    ensures ok && w.Up(now, now, service) && !w.KeyFits()
  {
    w := TornWorld(keySize, now);
    ghost var unread;
    ok, unread := w.EnsureCertificate(keySize, service, now, now);
  }

  // ---------------------------------------------------------------- bounds

  /**
   Certificates are dated an hour back, to whole seconds. A new CA passes its own check for 334
   days and 23 hours, less the dropped fraction of a second, and fails it from then on.
   */
  lemma FreshCaLasts(issued: int, now: int, key: nat, keySize: nat)
    ensures var ca := IssuedAt(issued, key, key, CA_CERT_MAX_AGE);
            var data: SecretData := map[CA_CERT_FILE := CertPem(ca), CA_KEY_FILE := KeyPem(key, keySize)];
            && ca.key == ca.signer == key && WholeSeconds(ca)
            && issued - HOUR - SECOND < ca.notBefore <= issued - HOUR
            && issued - HOUR + 365 * DAY - SECOND < ca.notAfter <= issued - HOUR + 365 * DAY
            && (now <= issued + 334 * DAY + 23 * HOUR - SECOND ==> CaSecretUsable(data, keySize, now))
            && (now >= issued + 334 * DAY + 23 * HOUR ==> !CaSecretUsable(data, keySize, now))
  {
  }

  predicate WholeSeconds(c: Cert) {
    c.notBefore % 1_000_000_000 == 0 && c.notAfter % 1_000_000_000 == 0
  }

  /** A new server certificate is kept for 5 days and 23 hours, less the dropped fraction of a second. */
  lemma FreshServerLasts(issued: int, now: int, key: nat, signer: nat)
    ensures var server := IssuedAt(issued, key, signer, SERVER_CERT_MAX_AGE);
            && server.key == key && server.signer == signer && WholeSeconds(server)
            && issued - HOUR - SECOND < server.notBefore <= issued - HOUR
            && issued - HOUR + 7 * DAY - SECOND < server.notAfter <= issued - HOUR + 7 * DAY
            && (now <= issued + 5 * DAY + 23 * HOUR - SECOND ==>
                  FarFromExpiry(CertPem(server), SERVER_SOFT_EXPIRY, now))
            && (now >= issued + 5 * DAY + 23 * HOUR ==> !FarFromExpiry(CertPem(server), SERVER_SOFT_EXPIRY, now))
    ensures SECOND == 1_000_000_000 && HOUR == 3_600 * SECOND && DAY == 86_400 * SECOND
  {
  }

  /** A new server certificate outlives no CA that passed its check within the last 23 days. */
  lemma ServerWithinCa(ca: Cert, checked: int, issued: int, key: nat)
    requires ca.notAfter - CA_SOFT_EXPIRY > checked && issued - checked < 23 * DAY
    ensures IssuedAt(issued, key, ca.key, SERVER_CERT_MAX_AGE).notAfter <= ca.notAfter
  {
  }
}
