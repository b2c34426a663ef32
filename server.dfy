/** CouchDBServer: where the database lives (host and port) and the Basic
    credential sent with every request. */
module CouchServer {
  import opened Text
  import opened Wrappers
  import Base64
  import opened Http

  /** A C++ int. */
  type Int32 = n: int | -0x8000_0000 <= n < 0x8000_0000

  const DefaultUrl: string := "localhost"
  const DefaultPort: Int32 := 5984

  /** "http://<url>:<port>", the port written in decimal. */
  function BaseUrl(url: string, port: int): (s: string)
    ensures |s| == 8 + |url| + |Decimal(port)|
    ensures s[..7] == "http://" && s[7..7 + |url|] == url && s[7 + |url|] == ':'
    ensures s[8 + |url|..] == Decimal(port)
  {
    "http://" + url + ":" + Decimal(port)
  }

  /** After the ':' that ends the host, the base URL holds only the port's
      digits and sign, never another ':'. */
  lemma NoColonInPort(url: string, port: int, k: int)
    requires 8 + |url| <= k < |BaseUrl(url, port)|
    ensures BaseUrl(url, port)[k] != ':'
  {
    var d := Decimal(port);
    assert BaseUrl(url, port)[k] == d[k - 8 - |url|];
  }

  /** The base URL determines host and port: no two configurations share one.
      (The port text has no ':', so the last ':' separates the two.) */
  lemma BaseUrlInjective(u: string, p: int, u': string, p': int)
    requires BaseUrl(u, p) == BaseUrl(u', p')
    ensures u == u' && p == p'
  {
    var s := BaseUrl(u, p);
    if 8 + |u| <= 7 + |u'| {
      NoColonInPort(u, p, 7 + |u'|);
    }
    if 8 + |u'| <= 7 + |u| {
      NoColonInPort(u', p', 7 + |u|);
    }
    assert |u| == |u'|;
    assert u == s[7..7 + |u|] == u';
    assert Decimal(p) == s[8 + |u|..] == Decimal(p');
    DecimalInjective(p, p');
  }

  /** The stored credential: Base64 of the Latin-1 bytes of "user:password". */
  function CredentialFor(username: string, password: string): string {
    Base64.Encode(Latin1(username + ":" + password))
  }

  /** The credential is a padded Base64 text from which "user:password" (in
      Latin-1) decodes back. */
  lemma CredentialForDecodes(username: string, password: string)
    ensures Base64.Decode(CredentialFor(username, password))
      == Some(Latin1(username) + [0x3A] + Latin1(password))
  {
    Latin1Append(username + ":", password);
    Latin1Append(username, ":");
    assert ":"[1..] == "";
    assert Latin1(":") == [0x3A];
    Base64.DecodeEncode(Latin1(username + ":" + password));
  }

  /** The input always holds the ':', so a credential is never empty. */
  lemma CredentialForNonEmpty(username: string, password: string)
    ensures |CredentialFor(username, password)| >= 4
  {
    var n := |Latin1(username + ":" + password)|;
    assert n >= 1;
    assert (n + 2) / 3 >= 1;
  }

  class CouchDBServer {
    var url: string
    var port: Int32
    /** Base64 text of the credential; "" when none was set. */
    var credential: string

    constructor ()
      ensures url == DefaultUrl && port == DefaultPort && credential == ""
    {
      url := DefaultUrl;
      port := DefaultPort;
      credential := "";
    }

    function Url(): string
      reads this
    {
      url
    }

    function Port(): Int32
      reads this
    {
      port
    }

    function Credential(): string
      reads this
    {
      credential
    }

    /** Stores the host; setting the current host returns early. */
    method SetUrl(newUrl: string)
      modifies this
      ensures Url() == newUrl
      ensures port == old(port) && credential == old(credential)
    {
      if url == newUrl {
        return;
      }
      url := newUrl;
    }

    /** Stores the port; setting the current port returns early. */
    method SetPort(newPort: Int32)
      modifies this
      ensures Port() == newPort
      ensures url == old(url) && credential == old(credential)
    {
      if port == newPort {
        return;
      }
      port := newPort;
    }

    /** "http://", the host, ':' and the port, from which the host and the
        port read back. */
    function BaseURL(): (u: string)
      reads this
      ensures |u| > 8 + |url| && u[..7] == "http://" && u[7..7 + |url|] == url && u[7 + |url|] == ':'
      ensures u[8 + |url|..] == Decimal(port) && ParseDecimal(u[8 + |url|..]) == port
    {
      DecimalRoundTrip(port);
      BaseUrl(url, port)
    }

    method SetCredential(username: string, password: string)
      modifies this
      ensures Credential() == CredentialFor(username, password)
      ensures HasCredential()
      ensures url == old(url) && port == old(port)
    {
      credential := CredentialFor(username, password);
      CredentialForNonEmpty(username, password);
    }

    /** A credential is held exactly when the stored text is non-empty, that
        is, exactly when executeQuery adds an Authorization header. */
    predicate HasCredential(): (b: bool)
      reads this
      ensures b <==> "Authorization" in WithCredential(EmptyRequest, credential).headers
    {
      credential != ""
    }
  }
}
