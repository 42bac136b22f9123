/** The scan-to-login credential record and its status encoding.

    A credential is the ticket a waiting client polls while another device
    scans and confirms the login. The record keeps its status as an integer
    code; here the status is a closed enumeration and the integer code is
    an explicit encoding with its decoding. The creation timestamp is a
    parameter instead of a clock read. */
module QrcodeCredential {
  import opened Wrappers

  datatype CredentialStatus = Created | Scanned | Confirmed | Consumed | Invalid

  /** The statuses a real ticket passes through, in order; `Invalid` is not
      among them, it only answers a lookup that found nothing. */
  const Lifecycle: seq<CredentialStatus> := [Created, Scanned, Confirmed, Consumed]

  /** The integer code of a status: a lifecycle status is coded by its
      position in the lifecycle, `Invalid` by the one negative code. */
  function Code(s: CredentialStatus): (c: int)
    ensures s == Invalid <==> c < 0
    ensures s == Invalid ==> c == -1
    ensures s != Invalid ==> 0 <= c < |Lifecycle| && Lifecycle[c] == s
  {
    match s
    case Created => 0
    case Scanned => 1
    case Confirmed => 2
    case Consumed => 3
    case Invalid => -1
  }

  /** Decodes an integer status code. Exactly the five codes decode, each to
      the one status that has it. */
  function FromCode(c: int): (r: Option<CredentialStatus>)
    ensures r.Some? <==> -1 <= c <= 3
    ensures forall s :: Code(s) == c <==> r == Some(s)
  {
    if c == -1 then Some(Invalid)
    else if 0 <= c < |Lifecycle| then Some(Lifecycle[c])
    else None
  }

  /** Encoding then decoding gives the status back: the instance of the
      second postcondition of `FromCode` at `c := Code(s)`. */
  lemma CodeRoundTrip(s: CredentialStatus)
    ensures FromCode(Code(s)) == Some(s)
  {
  }

  /** The five codes are pairwise distinct, rise along the lifecycle, and the
      invalid code lies below every lifecycle code. Distinctness is a
      corollary of the second postcondition of `FromCode` at `c := Code(a)`. */
  lemma CodeOrder(a: CredentialStatus, b: CredentialStatus)
    ensures Code(a) == Code(b) ==> a == b
    ensures forall i, j :: 0 <= i < j < |Lifecycle| ==> Code(Lifecycle[i]) < Code(Lifecycle[j])
    ensures a == Invalid && b != Invalid ==> Code(a) < Code(b)
  {
  }

  datatype Credential = Credential(
    ticket: Option<string>,
    url: Option<string>,
    status: CredentialStatus,
    createTime: Option<int>,
    scanTime: Option<int>,
    confirmTime: Option<int>,
    consumeTime: Option<int>,
    userId: int)

  /** Nothing has happened to the credential beyond its creation: it has no
      ticket or image address yet, no user, and no scan, confirm or consume
      time. */
  predicate Untouched(c: Credential) {
    && c.ticket.None?
    && c.url.None?
    && c.scanTime.None?
    && c.confirmTime.None?
    && c.consumeTime.None?
    && c.userId == 0
  }

  /** A freshly constructed credential, created at time `now`. */
  function NewCredential(now: int): (c: Credential)
    ensures c.status == Created && Code(c.status) == 0
    ensures c.createTime == Some(now)
    ensures Untouched(c)
  {
    Credential(None, None, Created, Some(now), None, None, None, 0)
  }

  /** The credential that stands for "no such ticket": a fresh credential
      whose status is `Invalid` and nothing else changed. */
  function InvalidCredential(now: int): (c: Credential)
    ensures c.status == Invalid && Code(c.status) == -1
    ensures c.createTime == Some(now)
    ensures Untouched(c)
    ensures c.(status := Created) == NewCredential(now)
  {
    NewCredential(now).(status := Invalid)
  }
}
