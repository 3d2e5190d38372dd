/** The TLS check of `ignoreKnownSslErrors`: the errors of a handshake are ignored only when
    every one of them is on a fixed list of benign kinds, so that printers with self-issued
    certificates stay reachable. */
module Tls {

  /** The kinds of TLS error Qt reports (QSslError::SslError); the kinds the allow-list does not
      single out are folded into `Other`. */
  datatype SslErrorKind =
    | NoError
    | SelfSignedCertificate
    | HostNameMismatch
    | UnableToGetLocalIssuerCertificate
    | UnableToVerifyFirstCertificate
    | Other(name: string)

  /** The allow-list, as the session spells it out. */
  const IgnoredSslErrors: seq<SslErrorKind> := [
    NoError, SelfSignedCertificate, HostNameMismatch,
    UnableToGetLocalIssuerCertificate, UnableToVerifyFirstCertificate
  ]

  /** A kind outside the allow-list: it makes the handshake fail. */
  predicate Fatal(e: SslErrorKind) {
    e.Other?
  }

  /** Whether the reply is told to ignore its TLS errors: the loop stops at the first error
      not on the allow-list and leaves the errors in force. */
  method IgnoreKnownSslErrors(errors: seq<SslErrorKind>) returns (ignored: bool)
    ensures ignored <==> forall i | 0 <= i < |errors| :: errors[i] in IgnoredSslErrors
    ensures ignored <==> forall i | 0 <= i < |errors| :: !Fatal(errors[i])
  {
    var i := 0;
    while i < |errors|
      invariant 0 <= i <= |errors|
      invariant forall j | 0 <= j < i :: errors[j] in IgnoredSslErrors
    {
      if errors[i] !in IgnoredSslErrors {
        return false;
      }
      i := i + 1;
    }
    return true;
  }
}
