/** Constants of the device library: endpoints, device models and their lookup tables. */
module ApiConst {
  import opened Wrappers
  import opened Text

  /** Where the per-model firmware manifests live. */
  const METADATA_BASE_FW_URL: string := "https://pro.mydomintell.com/private/fw/ecopilot/"

  /** The TCP port a device listens on while it receives a firmware image. */
  const FW_UPDATE_PORT: int := 9000

  /** The device models; `Value` is the `StrEnum` string the device reports. */
  datatype Model = EcoP1 | EcoPlug | EcoDriveP1 | EcoDriveLk | TankSense | HubSense | HubSenseEth {
    function Value(): string {
      match this
      case EcoP1 => "ecoP1"
      case EcoPlug => "ecoPlug"
      case EcoDriveP1 => "ecoDrive-P1"
      case EcoDriveLk => "ecoDrive-LK"
      case TankSense => "tankSense"
      case HubSense => "hubSense"
      case HubSenseEth => "hubSense-ETH"
    }
  }

  /** `Model(s)`: the model whose string is `s`, if any. */
  function ParseModel(s: string): (r: Option<Model>)
    ensures r.Some? ==> r.value.Value() == s
    ensures r.None? ==> forall m: Model :: m.Value() != s
  {
    if s == "ecoP1" then Some(EcoP1)
    else if s == "ecoPlug" then Some(EcoPlug)
    else if s == "ecoDrive-P1" then Some(EcoDriveP1)
    else if s == "ecoDrive-LK" then Some(EcoDriveLk)
    else if s == "tankSense" then Some(TankSense)
    else if s == "hubSense" then Some(HubSense)
    else if s == "hubSense-ETH" then Some(HubSenseEth)
    else None
  }

  /** Model string to the identifier used in the device's TLS host name. */
  const MODEL_TO_ID: map<string, string> := map[
    "ecoP1" := "eco-p1",
    "ecoPlug" := "ecoplug",
    "ecoDrive-P1" := "ecodrive-p1",
    "ecoDrive-LK" := "ecodrive-lk",
    "tankSense" := "tanksense",
    "hubSense" := "hubsense-wifi",
    "hubSense-ETH" := "hubsense-eth"
  ]

  /** Model string to the product name shown to users. */
  const MODEL_TO_NAME: map<string, string> := map[
    "ecoP1" := "Wi-Fi P1 Meter",
    "ecoPlug" := "Smart Plug",
    "ecoDrive-P1" := "ecoDrive P1",
    "ecoDrive-LK" := "ecoDrive Linky",
    "tankSense" := "tankSense",
    "hubSense" := "hubSense Wi-Fi",
    "hubSense-ETH" := "hubSense Ethernet"
  ]

  /** The model strings are pairwise distinct, so `ParseModel` inverts `Value`. */
  lemma ModelValueInjective(m: Model, n: Model)
    ensures m.Value() == n.Value() ==> m == n
    ensures ParseModel(m.Value()) == Some(m)
  {
  }

  /** MODEL_TO_ID has an entry for exactly the seven model strings. */
  lemma ModelToIdTotal()
    ensures forall m: Model :: m.Value() in MODEL_TO_ID
    ensures forall s :: s in MODEL_TO_ID <==> ParseModel(s).Some?
  {
  }

  /** The identifiers are pairwise distinct and lower-case. */
  lemma ModelToIdInjectiveLowerCase()
    ensures forall a, b :: a in MODEL_TO_ID && b in MODEL_TO_ID && a != b ==> MODEL_TO_ID[a] != MODEL_TO_ID[b]
    ensures forall a :: a in MODEL_TO_ID ==> IsLowerCase(MODEL_TO_ID[a])
  {
    forall a | a in MODEL_TO_ID
      ensures IsLowerCase(MODEL_TO_ID[a])
    {
      var id := MODEL_TO_ID[a];
      assert forall i :: 0 <= i < |id| ==> !('A' <= id[i] <= 'Z');
      assert Lower(id) == id;
    }
  }

  /** MODEL_TO_NAME has an entry for exactly the seven model strings. */
  lemma ModelToNameTotal()
    ensures forall m: Model :: m.Value() in MODEL_TO_NAME
    ensures forall s :: s in MODEL_TO_NAME <==> ParseModel(s).Some?
  {
  }

  /** The manifest base URL ends with a slash, so appending a path needs no separator. */
  lemma FirmwareEndpoints()
    ensures EndsWith(METADATA_BASE_FW_URL, "/")
    ensures FW_UPDATE_PORT == 9000
  {
  }

  /** The tank shapes a tankSense device can be configured with; `Value` is the `StrEnum` string. */
  datatype TankShape =
    | Linear | Rectangular | CylindricalH | CylindricalV
    | SphericalEndsH | EllipticalEndsH | EllipticalCylinderH
  {
    function Value(): string {
      match this
      case Linear => "Linear"
      case Rectangular => "Rectangular"
      case CylindricalH => "Horizontal Cylindrical"
      case CylindricalV => "Vertical Cylindrical"
      case SphericalEndsH => "Horizontal Spherical Ends"
      case EllipticalEndsH => "Horizontal Elliptical Ends"
      case EllipticalCylinderH => "Horizontal Elliptical Cylinder"
    }
  }
}
