/** ElmerComponent: a finite-element coil of the circuit. Besides its
    netlist entry (name, pins, Elmer component number) it carries the coil
    configuration Elmer needs (coil type, turns, resistance, thickness,
    dimension, open or closed, terminal boundaries), which its setters change
    in place and its getters read. */
module Coils {
  import Netlist
  import Partition

  datatype Option<T> = None | Some(value: T)

  /** A master body is named by its integer index or by its name. */
  datatype MasterBody = BodyIndex(index: int) | BodyName(name: string)

  /** The coil types the setters write. */
  const CoilTypes: set<string> := {"Massive", "Stranded", "Foil winding"}

  /** The whole state of a coil, as one value. */
  datatype CoilState = CoilState(
    name: string, pin1: int, pin2: int, componentNumber: int, masterBodies: seq<MasterBody>, sector: real,
    dimension: string, coilType: string, closed: Option<bool>, numberTurns: real, resistance: real,
    coilThickness: real, bnd1: Option<int>, bnd2: Option<int>)

  class ElmerComponent {
    var name: string
    var pin1: int
    var pin2: int
    var componentNumber: int
    var masterBodies: seq<MasterBody>
    var sector: real
    var dimension: string
    var coilType: string
    var closed: Option<bool>
    var numberTurns: real
    var resistance: real
    var coilThickness: real
    var bnd1: Option<int>
    var bnd2: Option<int>

    function State(): CoilState
      reads this
    {
      CoilState(name, pin1, pin2, componentNumber, masterBodies, sector, dimension, coilType, closed,
                numberTurns, resistance, coilThickness, bnd1, bnd2)
    }

    /** A coil type the setters know, a 2D or 3D dimension, and terminal
        boundaries only once the coil has been declared open (a later
        `IsClosed` leaves them in place). */
    ghost predicate Valid()
      reads this
    {
      && coilType in CoilTypes
      && dimension in {"2D", "3D"}
      && (closed == None ==> bnd1 == None && bnd2 == None)
    }

    /** The coil as the assembly pipeline sees it: an Elmer component with
        its number, name and pins; its value is not used. */
    function AsComponent(): (c: Netlist.Component)
      reads this
      ensures Partition.IsA(c, Partition.ElmerComponents)
      ensures forall t: Partition.Class :: Partition.IsA(c, t) ==> t == Partition.ElmerComponents
    {
      Netlist.Component(Netlist.ElmerComponent(componentNumber), name, pin1, pin2, 0)
    }

    /** A new coil: massive, 2D, one turn, neither open nor closed, no
        terminals; a missing master body list becomes the empty list. */
    constructor(name: string, pin1: int, pin2: int, componentNumber: int := 0,
                masterBodyList: Option<seq<MasterBody>> := None, sector: real := 1.0)
      ensures Valid()
      ensures State() == CoilState(name, pin1, pin2, componentNumber,
                                   if masterBodyList.None? then [] else masterBodyList.value, sector,
                                   "2D", "Massive", None, 1.0, 0.0, 0.0, None, None)
      ensures CoilType() == "Massive" && NumberOfTurns() == 1.0 && TerminalType() == None && OpenTerminals() == [None, None]
    {
      this.name := name;
      this.pin1 := pin1;
      this.pin2 := pin2;
      this.componentNumber := componentNumber;
      this.masterBodies := if masterBodyList.None? then [] else masterBodyList.value;
      this.sector := sector;
      dimension := "2D";
      coilType := "Massive";
      closed := None;
      numberTurns := 1.0;
      resistance := 0.0;
      coilThickness := 0.0;
      bnd1 := None;
      bnd2 := None;
    }

    /** massive(): only the coil type changes. */
    method Massive()
      requires Valid()
      modifies this
      ensures Valid()
      ensures State() == old(State()).(coilType := "Massive")
      ensures CoilType() == "Massive"
      ensures AsComponent() == old(AsComponent())
    {
      coilType := "Massive";
    }

    /** stranded(): the coil type, the number of turns and the resistance of
        one turn change; the foil thickness is kept. */
    method Stranded(numberTurns: real, resistance: real)
      requires Valid()
      modifies this
      ensures Valid()
      ensures State() == old(State()).(coilType := "Stranded", numberTurns := numberTurns, resistance := resistance)
      ensures CoilType() == "Stranded" && NumberOfTurns() == numberTurns && Resistance() == resistance
      ensures AsComponent() == old(AsComponent())
    {
      coilType := "Stranded";
      this.numberTurns := numberTurns;
      this.resistance := resistance;
    }

    /** foil(): the coil type becomes "Foil winding" and the number of turns
        and the thickness change; the stranded resistance is kept. */
    method Foil(numberOfTurns: real, coilThickness: real)
      requires Valid()
      modifies this
      ensures Valid()
      ensures State() == old(State()).(coilType := "Foil winding", numberTurns := numberOfTurns,
                                       coilThickness := coilThickness)
      ensures CoilType() == "Foil winding" && NumberOfTurns() == numberOfTurns && CoilThickness() == coilThickness
      ensures AsComponent() == old(AsComponent())
    {
      coilType := "Foil winding";
      numberTurns := numberOfTurns;
      this.coilThickness := coilThickness;
    }

    /** is3D(): only the dimension changes. */
    method Is3D()
      requires Valid()
      modifies this
      ensures Valid()
      ensures State() == old(State()).(dimension := "3D")
      ensures AsComponent() == old(AsComponent())
    {
      dimension := "3D";
    }

    /** isClosed(): the coil is marked closed and true is returned; terminal
        boundaries an earlier `IsOpen` set are not cleared. */
    method IsClosed() returns (isClosed: bool)
      requires Valid()
      modifies this
      ensures Valid()
      ensures isClosed && TerminalType() == Some(true)
      ensures State() == old(State()).(closed := Some(true))
      ensures OpenTerminals() == old(OpenTerminals())
    {
      closed := Some(true);
      isClosed := true;
    }

    /** isOpen(): the two terminal boundaries are recorded, the coil is
        marked open and false is returned. */
    method IsOpen(bnd1: int, bnd2: int) returns (isClosed: bool)
      requires Valid()
      modifies this
      ensures Valid()
      ensures !isClosed && TerminalType() == Some(false)
      ensures OpenTerminals() == [Some(bnd1), Some(bnd2)]
      ensures State() == old(State()).(closed := Some(false), bnd1 := Some(bnd1), bnd2 := Some(bnd2))
    {
      this.bnd1 := Some(bnd1);
      this.bnd2 := Some(bnd2);
      closed := Some(false);
      isClosed := false;
    }

    /** getCoilType(): on a valid coil, one of the three coil types. */
    function CoilType(): (t: string)
      reads this
      ensures Valid() ==> t in CoilTypes
    {
      coilType
    }

    function NumberOfTurns(): real
      reads this
    {
      numberTurns
    }

    function Resistance(): real
      reads this
    {
      resistance
    }

    function CoilThickness(): real
      reads this
    {
      coilThickness
    }

    /** getOpenTerminals(): both boundaries, None while unset; on a valid
        coil that has not been declared open or closed, both are unset. */
    function OpenTerminals(): (terminals: seq<Option<int>>)
      reads this
      ensures |terminals| == 2
      ensures Valid() && TerminalType() == None ==> terminals == [None, None]
    {
      [bnd1, bnd2]
    }

    /** getTerminalType(): None until IsOpen or IsClosed is called. */
    function TerminalType(): Option<bool>
      reads this
    {
      closed
    }
  }
}
