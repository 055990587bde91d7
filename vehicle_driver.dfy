/** The vehicle driver's pairing list: the vehicles that stream fleet
    telemetry, each with the icon and images of its model, which the fourth
    character of its VIN names. */
module VehicleDriver {
  import opened Wrappers
  import opened Catalog

  /** The graphics spread into an entry. */
  datatype Graphics = Graphics(icon: string, small: string, large: string, xlarge: string)

  /** One pairing entry: its name, data `{ vin }` and, for a known model, its graphics. */
  datatype Entry = Entry(name: string, vin: string, graphics: Option<Graphics>)

  function Images(folder: string): Graphics {
    var base := "{{driverAssetsPath}}/images/" + folder;
    Graphics(folder + ".svg", base + "/small.png", base + "/large.png", base + "/xlarge.png")
  }

  /** The asset folder of a model character. */
  function Folder(model: char): Option<string> {
    match model
    case '3' => Some("model3")
    case 'Y' => Some("modelY")
    case 'S' => Some("modelS")
    case 'X' => Some("modelX")
    case 'C' => Some("cybertruck")
    case _ => None
  }

  /** `graphics?.[vin[3]]`: a VIN shorter than four characters reads as
      undefined and adds nothing. */
  function GraphicsOf(vin: string): (r: Option<Graphics>) {
    if |vin| < 4 then None
    else match Folder(vin[3])
      case None => None
      case Some(f) => Some(Images(f))
  }

  /** `.filter(({ metadata }) => !!metadata.fleet_telemetry).map(...)` */
  function Entries(vehicles: seq<Vehicle>): seq<Entry> {
    if vehicles == [] then []
    else (if vehicles[0].metadata.fleet_telemetry
          then [Entry(vehicles[0].name, vehicles[0].vin, GraphicsOf(vehicles[0].vin))] else [])
         + Entries(vehicles[1..])
  }

  /** `onPairListDevices()`, given the awaited `getProducts()`: missing
      products list nothing. */
  function ListDevices(products: Option<Products>): seq<Entry> {
    if products.None? then [] else Entries(products.value.vehicles)
  }

  /** A listed entry is exactly that of a streaming vehicle, with its name,
      its VIN and the graphics of its VIN. */
  lemma {:induction false} EntriesMembers(vehicles: seq<Vehicle>, e: Entry)
    ensures e in Entries(vehicles) <==>
      exists v :: v in vehicles && v.metadata.fleet_telemetry && e == Entry(v.name, v.vin, GraphicsOf(v.vin))
  {
    if vehicles != [] {
      EntriesMembers(vehicles[1..], e);
      assert vehicles == [vehicles[0]] + vehicles[1..];
    }
  }

  /** The listing keeps catalog order. */
  lemma {:induction false} EntriesAppend(a: seq<Vehicle>, b: seq<Vehicle>)
    ensures Entries(a + b) == Entries(a) + Entries(b)
  {
    if a == [] {
      assert a + b == b;
    } else {
      var head := if a[0].metadata.fleet_telemetry then [Entry(a[0].name, a[0].vin, GraphicsOf(a[0].vin))] else [];
      assert (a + b)[0] == a[0] && (a + b)[1..] == a[1..] + b;
      assert Entries(a + b) == head + Entries(a[1..] + b);
      EntriesAppend(a[1..], b);
      assert head + (Entries(a[1..]) + Entries(b)) == (head + Entries(a[1..])) + Entries(b);
    }
  }

  /** With no vehicle streaming, or no products, nothing is listed. */
  lemma {:induction false} NothingStreaming(vehicles: seq<Vehicle>)
    requires forall i :: 0 <= i < |vehicles| ==> !vehicles[i].metadata.fleet_telemetry
    ensures Entries(vehicles) == [] && ListDevices(None) == []
  {
    if vehicles != [] {
      NothingStreaming(vehicles[1..]);
    }
  }

  /** A VIN names a known model exactly when its fourth character is one of
      "3", "Y", "S", "X" and "C"; the icon and the three images then come
      from the same folder. */
  lemma GraphicsCases(vin: string)
    ensures GraphicsOf(vin).Some? <==> |vin| >= 4 && vin[3] in {'3', 'Y', 'S', 'X', 'C'}
    ensures GraphicsOf(vin).Some? ==>
      var g := GraphicsOf(vin).value;
      exists f :: Folder(vin[3]) == Some(f) && g.icon == f + ".svg" &&
        g.small == "{{driverAssetsPath}}/images/" + f + "/small.png"
    ensures |vin| >= 4 && vin[3] == 'C' ==> GraphicsOf(vin).value.icon == "cybertruck.svg"
  {
  }
}
