/** The two sinks a device error passes on its way to a log or a tool result. */
module RedactErrors {
  import opened Wrappers
  import opened Decimal
  import opened Text
  import opened Redact

  /** A Go error chain: pango's two coded errors, a plain error, and wrapping with surrounding text. */
  datatype DeviceError =
    | Plain(text: string)
    | Panos(code: int, text: string)
    | MultiConfig(code: int, text: string)
    | Wrapped(before: string, inner: DeviceError, after: string)
  {
    function Message(): string {
      match this
      case Plain(text) => text
      case Panos(_, text) => text
      case MultiConfig(_, text) => text
      case Wrapped(before, inner, after) => before + inner.Message() + after
    }

    /** `errors.AsType[panoserr.Panos]`. */
    function AsPanos(): Option<int> {
      match this
      case Panos(code, _) => Some(code)
      case Wrapped(_, inner, _) => inner.AsPanos()
      case _ => None
    }

    /** `errors.AsType[*xmlapi.MultiConfigResponse]`. */
    function AsMultiConfig(): Option<int> {
      match this
      case MultiConfig(code, _) => Some(code)
      case Wrapped(_, inner, _) => inner.AsMultiConfig()
      case _ => None
    }
  }

  function WithDeviceCode(code: int, msg: string): string {
    if code == 0 then msg else "device response code " + Itoa(code) + ": " + msg
  }

  function WithDeviceCodeFromErr(err: DeviceError, msg: string): string {
    if err.AsPanos().Some? then WithDeviceCode(err.AsPanos().value, msg)
    else if err.AsMultiConfig().Some? then WithDeviceCode(err.AsMultiConfig().value, msg)
    else msg
  }

  /** One write option: whether it carries an extractor, and what that yields on this call's input. */
  type WriteOption = Option<seq<string>>

  predicate IsSecretBearing(opts: seq<WriteOption>) {
    exists i :: 0 <= i < |opts| && opts[i].Some?
  }

  function AllSecrets(opts: seq<WriteOption>): seq<string> {
    if opts == [] then [] else AllSecrets(opts[..|opts| - 1]) + opts[|opts| - 1].GetOr([])
  }

  method GatherSecrets(opts: seq<WriteOption>) returns (out: seq<string>)
    ensures out == AllSecrets(opts)
  {
    out := [];
    for n := 0 to |opts|
      invariant out == AllSecrets(opts[..n])
    {
      assert opts[..n + 1][..n] == opts[..n];
      if opts[n].Some? {
        out := out + opts[n].value;
      }
    }
    assert opts[..|opts|] == opts;
  }

  function RedactedWriteError(err: DeviceError, opts: seq<WriteOption>): string {
    var collapse := IsSecretBearing(opts);
    var msg := Redacted(err.Message(), AllSecrets(opts), collapse);
    if collapse && Contains(msg, MARKER) then WithDeviceCodeFromErr(err, msg) else msg
  }

  function RedactedDeviceError(err: Option<DeviceError>, secrets: seq<string>): string {
    if err.None? then ""
    else
      var msg := Redacted(err.value.Message(), secrets, true);
      if !Contains(msg, MARKER) then msg else WithDeviceCodeFromErr(err.value, msg)
  }

  // ----- No submitted secret comes out -----

  /** A text without `s`, or one with the device's response code in front of it. */
  ghost predicate FreeOf(out: string, s: string) {
    || !Contains(out, s)
    || exists k :: 0 <= k <= |out| && Prefix(out[..k]) && !Contains(out[k..], s)
  }

  ghost predicate Prefix(text: string) {
    exists code: int :: text == "device response code " + Itoa(code) + ": "
  }

  lemma PrefixedIsFree(code: int, msg: string, s: string)
    requires !Contains(msg, s)
    ensures FreeOf(WithDeviceCode(code, msg), s)
  {
    if code != 0 {
      var before := "device response code " + Itoa(code) + ": ";
      var out := WithDeviceCode(code, msg);
      assert out == before + msg;
      assert out[..|before|] == before && out[|before|..] == msg;
      assert Prefix(out[..|before|]);
    }
  }

  lemma CodedIsFree(err: DeviceError, msg: string, s: string)
    requires !Contains(msg, s)
    ensures FreeOf(WithDeviceCodeFromErr(err, msg), s)
  {
    if err.AsPanos().Some? {
      PrefixedIsFree(err.AsPanos().value, msg, s);
    } else if err.AsMultiConfig().Some? {
      PrefixedIsFree(err.AsMultiConfig().value, msg, s);
    }
  }

  lemma {:induction false} SecretGathered(opts: seq<WriteOption>, i: nat, s: string)
    requires i < |opts| && opts[i].Some? && s in opts[i].value
    ensures s in AllSecrets(opts)
  {
    if i < |opts| - 1 {
      SecretGathered(opts[..|opts| - 1], i, s);
    }
  }

  lemma Declares(opts: seq<WriteOption>, i: nat)
    requires i < |opts| && opts[i].Some?
    ensures IsSecretBearing(opts)
  {
  }

  lemma WriteScrubs(err: DeviceError, opts: seq<WriteOption>, i: nat, s: string)
    requires i < |opts| && opts[i].Some? && s in opts[i].value && s != "" && Scrubbable(s, true)
    ensures FreeOf(RedactedWriteError(err, opts), s)
  {
    SecretGathered(opts, i, s);
    Declares(opts, i);
    var msg := Redacted(err.Message(), AllSecrets(opts), true);
    ScrubbableIsScrubbed(err.Message(), AllSecrets(opts), s, true);
    CodedIsFree(err, msg, s);
  }

  /** The read sink scrubs the secrets it is handed likewise. */
  lemma ReadScrubs(err: DeviceError, secrets: seq<string>, s: string)
    requires s in secrets && s != "" && Scrubbable(s, true)
    ensures FreeOf(RedactedDeviceError(Some(err), secrets), s)
  {
    var msg := Redacted(err.Message(), secrets, true);
    ScrubbableIsScrubbed(err.Message(), secrets, s, true);
    CodedIsFree(err, msg, s);
  }

  /** `redactWriteError`: whatever a Scrubbable secret of any option, it is not in the message returned. */
  method RedactWriteError(err: DeviceError, opts: seq<WriteOption>) returns (out: string)
    ensures out == RedactedWriteError(err, opts)
    ensures forall i, s :: 0 <= i < |opts| && opts[i].Some? && s in opts[i].value && s != "" && Scrubbable(s, true) ==>
              FreeOf(out, s)
  {
    var collapse := IsSecretBearing(opts);
    var secrets := GatherSecrets(opts);
    var msg := RedactSecrets(err.Message(), secrets, collapse);
    out := msg;
    if collapse && Contains(msg, MARKER) {
      out := WithDeviceCodeFromErr(err, msg);
    }
    forall i, s | 0 <= i < |opts| && opts[i].Some? && s in opts[i].value && s != "" && Scrubbable(s, true)
      ensures FreeOf(out, s)
    {
      WriteScrubs(err, opts, i, s);
    }
  }

  ghost predicate SameCodes(e: DeviceError, f: DeviceError) {
    e.AsPanos() == f.AsPanos() && e.AsMultiConfig() == f.AsMultiConfig()
  }

  /**
   * Two errors with the same codes whose messages agree up to the first marker are indistinguishable after
   * either sink, for a family that declares a secret, whether or not this call submitted one.
   */
  lemma RawBodyNeverLeaks(e: DeviceError, f: DeviceError, x: string, bodyE: string, bodyF: string,
                          opts: seq<WriteOption>, secrets: seq<string>)
    requires SameCodes(e, f) && !Contains(x, MARKER)
    requires e.Message() == x + MARKER + bodyE && f.Message() == x + MARKER + bodyF
    ensures RedactedDeviceError(Some(e), secrets) == RedactedDeviceError(Some(f), secrets)
    ensures (exists i :: 0 <= i < |opts| && opts[i].Some?) ==>
              RedactedWriteError(e, opts) == RedactedWriteError(f, opts)
  {
    CollapseHidesBody(x, bodyE, secrets);
    CollapseHidesBody(x, bodyF, secrets);
    CollapseHidesBody(x, bodyE, AllSecrets(opts));
    CollapseHidesBody(x, bodyF, AllSecrets(opts));
  }

  /** The innermost error of a chain. */
  function Root(err: DeviceError): DeviceError {
    match err
    case Wrapped(_, inner, _) => Root(inner)
    case _ => err
  }

  lemma {:induction false} CodesOfRoot(err: DeviceError)
    ensures err.AsPanos() == if Root(err).Panos? then Some(Root(err).code) else None
    ensures err.AsMultiConfig() == if Root(err).MultiConfig? then Some(Root(err).code) else None
  {
    if err.Wrapped? {
      CodesOfRoot(err.inner);
    }
  }

  /** A message with the response code of the error at the root of the chain, if it has one that is not 0. */
  ghost predicate Coded(err: DeviceError, msg: string, out: string) {
    match Root(err)
    case Panos(code, _) => out == if code == 0 then msg else "device response code " + Itoa(code) + ": " + msg
    case MultiConfig(code, _) => out == if code == 0 then msg else "device response code " + Itoa(code) + ": " + msg
    case _ => out == msg
  }

  /** The device code is the only thing either sink adds, and it adds it exactly when it discarded a body. */
  lemma CodeExactlyOnCollapse(err: DeviceError, opts: seq<WriteOption>, secrets: seq<string>)
    ensures var msg, out := Redacted(err.Message(), secrets, true), RedactedDeviceError(Some(err), secrets);
            if Contains(err.Message(), MARKER) then Coded(err, msg, out) else out == msg
    ensures var armed := exists i :: 0 <= i < |opts| && opts[i].Some?;
            var msg, out := Redacted(err.Message(), AllSecrets(opts), armed), RedactedWriteError(err, opts);
            if armed && Contains(err.Message(), MARKER) then Coded(err, msg, out) else out == msg
    ensures RedactedDeviceError(None, secrets) == ""
  {
    MarkerSurvives(err.Message(), secrets);
    MarkerSurvives(err.Message(), AllSecrets(opts));
    CodesOfRoot(err);
  }

  /** A write of a family that declares no secret keeps the device's message verbatim. */
  lemma NonSecretWriteVerbatim(err: DeviceError, opts: seq<WriteOption>)
    requires forall i :: 0 <= i < |opts| ==> opts[i].None?
    ensures RedactedWriteError(err, opts) == err.Message()
  {
    NoExtractorNoSecret(opts);
  }

  lemma {:induction false} NoExtractorNoSecret(opts: seq<WriteOption>)
    requires forall i :: 0 <= i < |opts| ==> opts[i].None?
    ensures AllSecrets(opts) == []
  {
    if opts != [] {
      var front := opts[..|opts| - 1];
      assert forall i :: 0 <= i < |front| ==> front[i] == opts[i];
      NoExtractorNoSecret(front);
    }
  }
}
