/** Device records and the decision functions attached to them. */
module Models {
  import opened Wrappers
  import opened Errors
  import opened Json
  import opened Bytes
  import opened Text
  import opened ApiConst

  // ---------------------------------------------------------------------------
  // Verification host name
  // ---------------------------------------------------------------------------

  /** `get_verification_hostname`: the TLS host name `<model id>_<serial>` of a device. */
  function VerificationHostname(model: string, serial: string): (r: Result<string, Error>)
    ensures r.Err? <==> model !in MODEL_TO_ID
    ensures r.Err? ==> r.error == ValueError
    ensures r.Ok? ==> StartsWith(r.value, MODEL_TO_ID[model]) && EndsWith(r.value, "_" + serial)
    ensures r.Ok? ==> |r.value| == |MODEL_TO_ID[model]| + 1 + |serial|
  {
    if model !in MODEL_TO_ID then Err(ValueError)
    else Ok(MODEL_TO_ID[model] + "_" + serial)
  }

  lemma IdsHaveNoUnderscore()
    ensures forall a, i :: a in MODEL_TO_ID && 0 <= i < |MODEL_TO_ID[a]| ==> MODEL_TO_ID[a][i] != '_'
  {
  }

  /** Two devices share a verification host name only when they have the same model and serial. */
  lemma VerificationHostnameInjective(m1: string, s1: string, m2: string, s2: string)
    requires VerificationHostname(m1, s1).Ok? && VerificationHostname(m2, s2).Ok?
    requires VerificationHostname(m1, s1) == VerificationHostname(m2, s2)
    ensures m1 == m2 && s1 == s2
  {
    IdsHaveNoUnderscore();
    SplitAtSeparator(MODEL_TO_ID[m1], s1, MODEL_TO_ID[m2], s2, '_');
    ModelToIdInjectiveLowerCase();
  }

  // ---------------------------------------------------------------------------
  // Device
  // ---------------------------------------------------------------------------

  /** The device description returned by `/api/info`; `modelName` and `id` are derived after decoding. */
  datatype Device = Device(
    modelName: Option<string>,
    id: Option<string>,
    productName: string,
    productModel: string,
    serialNumber: string,
    firmwareVersion: string,
    hardwareVersion: string,
    apiVersion: string)

  /** `Device.__post_deserialize__`: fill in the product name and the verification host name. */
  function PostDeserialize(obj: Device): (r: Result<Device, Error>)
    ensures r.Err? <==> obj.productModel !in MODEL_TO_ID
    ensures r.Err? ==> r.error == ValueError
    ensures r.Ok? ==> r.value.modelName == Some(MODEL_TO_NAME[obj.productModel])
    ensures r.Ok? ==> r.value.id == Some(MODEL_TO_ID[obj.productModel] + "_" + obj.serialNumber)
    ensures r.Ok? ==> r.value == obj.(modelName := r.value.modelName, id := r.value.id)
  {
    var modelName := if obj.productModel in MODEL_TO_NAME then Some(MODEL_TO_NAME[obj.productModel]) else None;
    match VerificationHostname(obj.productModel, obj.serialNumber)
    case Err(e) => Err(e)
    case Ok(host) => Ok(obj.(modelName := modelName, id := Some(host)))
  }

  /** `supports_state`: not for the P1 meter and not for tankSense. */
  predicate SupportsState(d: Device) {
    d.productModel != EcoP1.Value() && d.productModel != TankSense.Value()
  }

  /** `supports_config`: `(Model.ECOP1)` is a string, not a tuple, so this is a substring test. */
  predicate SupportsConfig(d: Device) {
    !IsSubstring(d.productModel, EcoP1.Value())
  }

  /** `supports_system`: not for tankSense. */
  predicate SupportsSystem(d: Device) {
    d.productModel != TankSense.Value()
  }

  /** Membership in the tuple of all seven models. */
  predicate IsKnownModel(s: string) {
    || s == EcoP1.Value() || s == EcoPlug.Value() || s == EcoDriveP1.Value() || s == EcoDriveLk.Value()
    || s == TankSense.Value() || s == HubSense.Value() || s == HubSenseEth.Value()
  }

  /** `supports_reboot` */
  predicate SupportsReboot(d: Device) {
    IsKnownModel(d.productModel)
  }

  /** `supports_identify` */
  predicate SupportsIdentify(d: Device) {
    IsKnownModel(d.productModel)
  }

  /** `supports_update` */
  predicate SupportsUpdate(d: Device) {
    IsKnownModel(d.productModel)
  }

  /** The capability matrix of the seven known models. */
  lemma CapabilityMatrix(d: Device, m: Model)
    requires d.productModel == m.Value()
    ensures SupportsState(d) <==> m != EcoP1 && m != TankSense
    ensures SupportsConfig(d) <==> m != EcoP1
    ensures SupportsSystem(d) <==> m != TankSense
    ensures SupportsReboot(d) && SupportsIdentify(d) && SupportsUpdate(d)
  {
    ModelValueInjective(m, EcoP1);
    ModelValueInjective(m, TankSense);
    if m != EcoP1 {
      if IsSubstring(m.Value(), EcoP1.Value()) {
        SubstringNotLonger(m.Value(), EcoP1.Value());
        assert false;
      }
    } else {
      assert StartsWith(EcoP1.Value(), m.Value());
    }
  }

  /** Reboot, identify and update are offered exactly for the seven known models. */
  lemma KnownModelsAreTheEnumeration(s: string)
    ensures IsKnownModel(s) <==> ParseModel(s).Some?
    ensures IsKnownModel(s) <==> s in MODEL_TO_ID
  {
  }

  /** `supports_config` rejects every model string that occurs inside "ecoP1", not only "ecoP1". */
  lemma SupportsConfigIsSubstringTest(d: Device)
    ensures !SupportsConfig(d) <==> exists i: nat :: OccursAt(d.productModel, EcoP1.Value(), i)
    ensures d.productModel == "P1" ==> !SupportsConfig(d) && !IsKnownModel(d.productModel)
  {
    IsSubstringIffOccurs(d.productModel, EcoP1.Value());
    if d.productModel == "P1" {
      assert OccursAt(d.productModel, EcoP1.Value(), 3);
    }
  }

  // ---------------------------------------------------------------------------
  // Update payload serialisation
  // ---------------------------------------------------------------------------

  /** `UpdateBaseModel.__post_serialize__`: an update with nothing in it is refused. */
  function PostSerialize(d: map<string, Json>): (r: Result<map<string, Json>, Error>)
    ensures r.Err? <==> d == map[]
    ensures r.Err? ==> r.error == ValueError
    ensures r.Ok? ==> r.value == d
  {
    if d == map[] then Err(ValueError) else Ok(d)
  }

  // ---------------------------------------------------------------------------
  // Hexadecimal meter identifiers
  // ---------------------------------------------------------------------------

  predicate IsAsciiBytes(bs: seq<byte>) {
    forall i :: 0 <= i < |bs| ==> bs[i] < 128
  }

  predicate IsAsciiText(s: string) {
    forall i :: 0 <= i < |s| ==> s[i] as int < 128
  }

  /** The text whose ASCII encoding is `bs`. */
  function AsciiDecode(bs: seq<byte>): (s: string)
    requires IsAsciiBytes(bs)
    ensures |s| == |bs| && forall i :: 0 <= i < |bs| ==> s[i] as int == bs[i] as int
  {
    seq(|bs|, i requires 0 <= i < |bs| => bs[i] as int as char)
  }

  /** The ASCII encoding of `s`. */
  function AsciiEncode(s: string): (bs: seq<byte>)
    requires IsAsciiText(s)
    ensures |bs| == |s| && IsAsciiBytes(bs) && forall i :: 0 <= i < |s| ==> bs[i] as int == s[i] as int
  {
    seq(|s|, i requires 0 <= i < |s| => s[i] as int as byte)
  }

  /** `bytes.fromhex(value).decode("utf-8")`, falling back to the input when either step fails. */
  function HexToReadable(value: Option<string>): (r: Option<string>)
    ensures value.None? ==> r.None?
    ensures value.Some? ==> r.Some?
    ensures value.Some? && r != value ==>
      FromHex(value.value).Some? && IsAsciiBytes(FromHex(value.value).value)
      && r.value == AsciiDecode(FromHex(value.value).value)
    ensures value.Some? && FromHex(value.value).Some? && IsAsciiBytes(FromHex(value.value).value) ==>
      r == Some(AsciiDecode(FromHex(value.value).value))
  {
    match value
    case None => None
    case Some(s) =>
      match FromHex(s)
      case None => value
      case Some(bs) => if IsAsciiBytes(bs) then Some(AsciiDecode(bs)) else value
  }

  /** Decoding the hexadecimal rendering of an ASCII text gives the text back. */
  lemma HexToReadableRoundTrip(s: string)
    requires IsAsciiText(s)
    ensures HexToReadable(Some(ToHex(AsciiEncode(s)))) == Some(s)
  {
    HexRoundTrip(AsciiEncode(s));
    assert AsciiDecode(AsciiEncode(s)) == s;
  }

  /** A character that is neither a hexadecimal digit nor whitespace makes `bytes.fromhex` fail. */
  lemma {:induction false} FromHexRejectsForeign(s: string, k: nat)
    requires k < |s| && !IsHexDigit(s[k]) && !IsAsciiSpace(s[k])
    ensures FromHex(s).None?
    decreases |s|
  {
    if s != [] && k > 0 {
      if IsAsciiSpace(s[0]) {
        FromHexRejectsForeign(s[1..], k - 1);
      } else if |s| >= 2 && IsHexDigit(s[0]) && IsHexDigit(s[1]) {
        if k >= 2 {
          FromHexRejectsForeign(s[2..], k - 2);
        }
      }
    }
  }

  /** Text that is not hexadecimal is returned unchanged. */
  lemma HexToReadableKeepsNonHex(s: string, k: nat)
    requires k < |s| && !IsHexDigit(s[k]) && !IsAsciiSpace(s[k])
    ensures HexToReadable(Some(s)) == Some(s)
  {
    FromHexRejectsForeign(s, k);
  }
}
