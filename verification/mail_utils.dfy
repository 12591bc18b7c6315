/** Attachment conversion for the mail server (servers/mail/utils.py).
    `convert_attachments` base64-decodes each string, wraps the bytes in a
    buffer named `attachment_<i>.bin` (1-based), and stops at the first
    string that does not decode, returning `{"error": ...}` for it. The
    function has no final `return`, so when every string decodes it
    returns `None` and the buffers it built are lost. The decoder is a
    parameter; `StrictDecode` instantiates it with the codec of the
    `Base64` module. */
module MailUtils {
  import opened Wrappers
  import Decimal
  import Base64

  type Bytes = seq<Base64.Byte>

  /** An `io.BytesIO` holding `data` whose `name` attribute was set. */
  datatype NamedBuffer = NamedBuffer(name: string, data: Bytes)

  /** The dict `{"error": message}`. */
  datatype ErrorDict = ErrorDict(error: string)

  /** The first string that failed: its 1-based position and `str(e)`. */
  datatype DecodeFailure = DecodeFailure(index: nat, reason: string)

  /** `base64.b64decode`: the bytes, or the text of the exception raised. */
  type Decoder = string -> Result<Bytes, string>

  const NamePrefix: string := "attachment_"
  const NameSuffix: string := ".bin"
  const DecodeErrorPrefix: string := "Ошибка при декодировании вложения "

  /** `f"attachment_{i}.bin"`. */
  function AttachmentName(i: nat): string
  {
    NamePrefix + Decimal.NatToString(i) + NameSuffix
  }

  /** `f"Ошибка при декодировании вложения {i}: {str(e)}"`. */
  function DecodeErrorText(i: nat, reason: string): string
  {
    DecodeErrorPrefix + Decimal.NatToString(i) + ": " + reason
  }

  /** The number in an attachment name can be read back from between the
      fixed prefix and suffix. */
  lemma AttachmentNameReadsBack(i: nat)
    ensures var r := AttachmentName(i);
      && |r| > |NamePrefix| + |NameSuffix|
      && r[..|NamePrefix|] == NamePrefix && r[|r| - |NameSuffix|..] == NameSuffix
      && Decimal.Denotes(r[|NamePrefix|..|r| - |NameSuffix|], i)
  {
    var r := AttachmentName(i);
    Decimal.NatToStringRoundTrip(i);
    assert r[|NamePrefix|..|r| - |NameSuffix|] == Decimal.NatToString(i);
    assert r[..|NamePrefix|] == NamePrefix;
  }

  /** The position in a decoding error can be read back after the fixed
      prefix, and the text ends with the exception's text. */
  lemma DecodeErrorTextReadsBack(i: nat, reason: string)
    ensures var r := DecodeErrorText(i, reason);
      && |r| > |DecodeErrorPrefix| + 2 + |reason|
      && r[..|DecodeErrorPrefix|] == DecodeErrorPrefix && r[|r| - |reason|..] == reason
      && r[|r| - |reason| - 2..|r| - |reason|] == ": "
      && Decimal.Denotes(r[|DecodeErrorPrefix|..|r| - |reason| - 2], i)
  {
    var r := DecodeErrorText(i, reason);
    Decimal.NatToStringRoundTrip(i);
    assert r[|DecodeErrorPrefix|..|r| - |reason| - 2] == Decimal.NatToString(i);
    assert r[..|DecodeErrorPrefix|] == DecodeErrorPrefix;
    assert r[|r| - |reason|..] == reason;
    assert r[|r| - |reason| - 2..|r| - |reason|] == ": ";
  }

  predicate AllDecode(attachments: seq<string>, decode: Decoder)
  {
    forall i :: 0 <= i < |attachments| ==> decode(attachments[i]).Ok?
  }

  /** Position `k` (0-based) is the first string that does not decode. */
  predicate FirstFailure(attachments: seq<string>, decode: Decoder, k: nat)
  {
    && k < |attachments|
    && decode(attachments[k]).Err?
    && forall j :: 0 <= j < k ==> decode(attachments[j]).Ok?
  }

  /** The loop of `convert_attachments`: the list `files` it builds, or the
      first failure, which ends the loop. */
  function Collect(attachments: seq<string>, decode: Decoder): (r: Result<seq<NamedBuffer>, DecodeFailure>)
    ensures r.Ok? <==> AllDecode(attachments, decode)
    ensures r.Ok? ==> |r.value| == |attachments|
    ensures r.Ok? ==> forall i :: 0 <= i < |attachments| ==>
      r.value[i] == NamedBuffer(AttachmentName(i + 1), decode(attachments[i]).value)
    ensures r.Err? ==> r.error.index >= 1 && FirstFailure(attachments, decode, r.error.index - 1)
    ensures r.Err? ==> decode(attachments[r.error.index - 1]) == Err(r.error.reason)
    decreases |attachments|
  {
    if |attachments| == 0 then Ok([])
    else
      var n := |attachments|;
      var front := attachments[..n - 1];
      assert forall j :: 0 <= j < n - 1 ==> front[j] == attachments[j];
      match Collect(front, decode)
      case Err(f) => Err(f)
      case Ok(files) =>
        match decode(attachments[n - 1])
        case Err(reason) => Err(DecodeFailure(n, reason))
        case Ok(data) => Ok(files + [NamedBuffer(AttachmentName(n), data)])
  }

  /** `convert_attachments` as written: the error dict for the first
      failing string, and `None` when every string decodes. */
  function ConvertAttachments(attachments: seq<string>, decode: Decoder): (r: Option<ErrorDict>)
    ensures r.None? <==> AllDecode(attachments, decode)
    ensures r.Some? ==> exists k: nat :: (FirstFailure(attachments, decode, k)
      && r.value == ErrorDict(DecodeErrorText(k + 1, decode(attachments[k]).error)))
  {
    match Collect(attachments, decode)
    case Err(f) => Some(ErrorDict(DecodeErrorText(f.index, f.reason)))
    case Ok(_) => None
  }

  /** `convert_attachments` with the evident `return files` added: the
      named buffers in input order, or the error dict for the first
      failing string. */
  function ConvertAttachmentsIntended(attachments: seq<string>, decode: Decoder): (r: Result<seq<NamedBuffer>, ErrorDict>)
    ensures r.Ok? <==> AllDecode(attachments, decode)
    ensures r.Ok? ==> |r.value| == |attachments|
    ensures r.Ok? ==> forall i :: 0 <= i < |attachments| ==>
      r.value[i].name == AttachmentName(i + 1) && Ok(r.value[i].data) == decode(attachments[i])
    ensures r.Err? ==> exists k: nat :: (FirstFailure(attachments, decode, k)
      && r.error == ErrorDict(DecodeErrorText(k + 1, decode(attachments[k]).error)))
  {
    match Collect(attachments, decode)
    case Err(f) => Err(ErrorDict(DecodeErrorText(f.index, f.reason)))
    case Ok(files) => Ok(files)
  }

  /** As written, a successful conversion hands nothing back: the caller
      receives `None` although one buffer per string was built. */
  lemma ConvertDiscardsFiles(attachments: seq<string>, decode: Decoder)
    requires AllDecode(attachments, decode)
    ensures ConvertAttachments(attachments, decode) == None
    ensures ConvertAttachmentsIntended(attachments, decode).Ok?
    ensures |ConvertAttachmentsIntended(attachments, decode).value| == |attachments|
  {
  }

  /** Once a string fails, nothing after it is looked at: appending more
      strings does not change the outcome. */
  lemma {:induction false} LaterEntriesIgnored(attachments: seq<string>, more: seq<string>, decode: Decoder)
    requires Collect(attachments, decode).Err?
    ensures Collect(attachments + more, decode) == Collect(attachments, decode)
    decreases |more|
  {
    if |more| > 0 {
      var front := attachments + more[..|more| - 1];
      LaterEntriesIgnored(attachments, more[..|more| - 1], decode);
      assert (attachments + more)[..|attachments + more| - 1] == front;
    } else {
      assert attachments + more == attachments;
    }
  }

  /** Distinct positions get distinct names. */
  lemma AttachmentNamesDistinct(i: nat, j: nat)
    requires i != j
    ensures AttachmentName(i) != AttachmentName(j)
  {
    AttachmentNameReadsBack(i);
    AttachmentNameReadsBack(j);
  }

  /** The decoder instantiated with the strict RFC 4648 codec: it accepts
      exactly the strict base64 texts, and an encoding decodes to the bytes
      it encodes. Every failure carries the same message. */
  function StrictDecode(s: string): (r: Result<Bytes, string>)
    ensures r.Ok? <==> Base64.IsStrictBase64(s)
    ensures forall bytes :: s == Base64.Encode(bytes) ==> r == Ok(bytes)
  {
    Base64.DecodeStrict(s);
    Base64.DecodeEncodings(s);
    match Base64.Decode(s)
    case Some(bytes) => Ok(bytes)
    case None => Err("Invalid base64-encoded string")
  }

  /** Encoding each payload and converting the encodings gives back one
      buffer per payload, in order, named by position. */
  lemma ConvertEncoded(payloads: seq<Bytes>)
    ensures var encoded := seq(|payloads|, i requires 0 <= i < |payloads| => Base64.Encode(payloads[i]));
      var r := ConvertAttachmentsIntended(encoded, StrictDecode);
      && r.Ok?
      && |r.value| == |payloads|
      && forall i :: 0 <= i < |payloads| ==> r.value[i] == NamedBuffer(AttachmentName(i + 1), payloads[i])
  {
    var encoded := seq(|payloads|, i requires 0 <= i < |payloads| => Base64.Encode(payloads[i]));
    forall i | 0 <= i < |payloads|
      ensures StrictDecode(encoded[i]) == Ok(payloads[i])
    {
      Base64.DecodeEncode(payloads[i]);
    }
  }

  /** The case that shows the missing return: one valid attachment, `QUJD`
      (the bytes of `ABC`), converts to `None` instead of a buffer. */
  lemma MissingReturnExample()
    ensures ConvertAttachments(["QUJD"], StrictDecode) == None
    ensures ConvertAttachmentsIntended(["QUJD"], StrictDecode) == Ok([NamedBuffer("attachment_1.bin", [65, 66, 67])])
  {
    DecodeAbc();
    assert AttachmentName(1) == "attachment_1.bin" by {
      assert Decimal.NatToString(1) == "1";
    }
    var files := Collect(["QUJD"], StrictDecode).value;
    assert files == [files[0]];
  }

  /** `QUJD` is the strict encoding of the bytes of `ABC`. */
  lemma DecodeAbc()
    ensures StrictDecode("QUJD") == Ok([65, 66, 67])
  {
    var bytes: Bytes := [65, 66, 67];
    assert Base64.SextetChar(16) == 'Q' && Base64.SextetChar(20) == 'U';
    assert Base64.SextetChar(9) == 'J' && Base64.SextetChar(3) == 'D';
    assert Base64.EncodeGroup(65, 66, 67) == "QUJD";
    assert bytes[3..] == [];
    assert Base64.Encode(bytes) == "QUJD";
  }
}
