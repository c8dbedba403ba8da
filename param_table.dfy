/**
 * The register table of parameters_table.h: one descriptor per register,
 * in table order, bound to its register class and storage, with the
 * address-span facts the lookup relies on.
 */
module ParamTable {
  import opened Ints
  import opened ParamTypes

  const R: bv16 := PAR_R
  const RW: bv16 := PAR_R | PAR_W
  const PUB: bv16 := PAR_PUBLIC
  const PUB_ESP: bv16 := PAR_PUBLIC | PAR_ESPNOW
  const INST: bv16 := PAR_INSTALLER
  const INST_ESP: bv16 := PAR_INSTALLER | PAR_ESPNOW

  /** The `DefPar_Ram`/`DefPar_RTC` descriptor: type, direction and level only. */
  function Plain(adr: uint16, def: int32, min: int32, max: int32, ty: bv16, dir: bv16, lvl: bv16,
                 atr: uint8, kind: Kind, store: Storage): ParDef
  {
    ParDef(min, max, def, ty | dir | lvl, adr, atr, kind, store)
  }

  /** The `DefPar_Nv` descriptor: adds `ParNv`. */
  function NvPar(adr: uint16, def: int32, min: int32, max: int32, ty: bv16, dir: bv16, lvl: bv16,
                 atr: uint8, kind: Kind): ParDef
  {
    ParDef(min, max, def, ty | dir | lvl | PAR_NV, adr, atr, kind, Nv)
  }

  /** The `DefPar_Fun` descriptor: adds `ParFun`. */
  function FunPar(adr: uint16, def: int32, min: int32, max: int32, ty: bv16, dir: bv16, lvl: bv16,
                  atr: uint8, kind: Kind, store: Storage): ParDef
  {
    ParDef(min, max, def, ty | dir | lvl | PAR_FUN, adr, atr, kind, store)
  }

  // indices into TABLE, in table order
  const StavZarizeni: nat := 0
  const StavKrmitka: nat := 1
  const ManualniOvladani: nat := 2
  const KalibracePrazdne: nat := 3
  const KalibracePlne: nat := 4
  const ChybovyKod: nat := 5
  const AktualniVaha: nat := 6
  const AktualniVahaProc: nat := 7
  const PosledniCasOtevreni: nat := 8
  const PosledniCasZavreni: nat := 9
  const CasOtevreni: nat := 10
  const CasZavreni: nat := 11
  const NapetiBaterie: nat := 12
  const AktualniProud: nat := 13
  const PovelOd: nat := 14
  const CasVychodu: nat := 15
  const CasZapadu: nat := 16
  const PosledniCasOtevreniS: nat := 17
  const PosledniCasZavreniS: nat := 18
  const AutomatikaOtevreni: nat := 19
  const AutomatikaZavreni: nat := 20
  const ZpozdeniOtevreni: nat := 21
  const ZpozdeniZavreni: nat := 22
  const MotorMaxProud: nat := 23
  const VahaPrazdne: nat := 24
  const VahaPlne: nat := 25
  const UrovenDoplneni: nat := 26
  const AutomatikaDoplnovani: nat := 27
  const CasProDoplneni: nat := 28
  const PeriodaKomunikace: nat := 29
  const MasterMacAdresa: nat := 30
  const WiFiKanal: nat := 31
  const PopisCasu: nat := 32
  const AktualniCas: nat := 33
  const LogHistory: nat := 34
  const VerzeFW: nat := 35
  const RestartCmd: nat := 36
  const CompDate: nat := 37
  const ResetReason: nat := 38
  const NMR_PARAMETERS: nat := 39

  const MAIN_REVISION: int32 := 21

  /** Entry `i` of the table. */
  function Def(i: nat): ParDef
    requires i < NMR_PARAMETERS
  {
    match i
    case 0 => Plain(1, 0, 0, 3, PAR_U16, R, PUB, FLAGS_NONE, U16, Ram)
    case 1 => Plain(2, 0, 0, 11, PAR_U16, R, PUB_ESP, STATE_FLAG, U16, Rtc)
    case 2 => FunPar(3, 0, 0, 2, PAR_U16, RW, PUB_ESP, COMMAND_FLAG, Command, Ram)
    case 3 => Plain(4, 0, 0, 2, PAR_U16, RW, PUB_ESP, FLAGS_NONE, U16, Ram)
    case 4 => Plain(5, 0, 0, 2, PAR_U16, RW, PUB_ESP, FLAGS_NONE, U16, Ram)
    case 5 => Plain(6, 0, 0, 100, PAR_U16, R, PUB_ESP, FLAGS_NONE, U16, Ram)
    case 6 => Plain(7, 0, -1000000, 10000000, PAR_S32, R, PUB_ESP, FLAGS_NONE, S32, Rtc)
    case 7 => Plain(9, 0, 5, 200, PAR_U16, R, PUB_ESP, CHART_FLAG, U16, Rtc)
    case 8 => FunPar(10, 0, 0, 6, PAR_STRING, R, PUB_ESP, FLAGS_NONE, Clock, Ram)
    case 9 => FunPar(13, 0, 0, 6, PAR_STRING, R, PUB_ESP, FLAGS_NONE, Clock, Ram)
    case 10 => FunPar(16, 0, 0, 6, PAR_STRING, R, PUB_ESP, FLAGS_NONE, Clock, Ram)
    case 11 => FunPar(19, 0, 0, 6, PAR_STRING, R, PUB_ESP, FLAGS_NONE, Clock, Ram)
    case 12 => Plain(22, 0, 5, 300, PAR_U16, R, PUB_ESP, CHART_FLAG, U16, Rtc)
    case 13 => Plain(100, 0, 0, 2000, PAR_S16, R, PUB, FLAGS_NONE, S16, Ram)
    case 14 => Plain(101, 0, 0, 5, PAR_U16, R, PUB, FLAGS_NONE, U16, Rtc)
    case 15 => Plain(102, 0, 0, 0, PAR_S32, R, PUB, FLAGS_NONE, S32, Rtc)
    case 16 => Plain(104, 0, 0, 0, PAR_S32, R, PUB, FLAGS_NONE, S32, Rtc)
    case 17 => Plain(106, 0, 0, 0, PAR_S32, R, PUB, FLAGS_NONE, S32, Rtc)
    case 18 => Plain(108, 0, 0, 0, PAR_S32, R, PUB, FLAGS_NONE, S32, Rtc)
    case 19 => NvPar(23, 1, 0, 1, PAR_U16, RW, PUB_ESP, BOOL_FLAG, U16)
    case 20 => NvPar(24, 1, 0, 1, PAR_U16, RW, PUB_ESP, BOOL_FLAG, U16)
    case 21 => NvPar(25, 0, -180, 180, PAR_S16, RW, PUB_ESP, FLAGS_NONE, S16)
    case 22 => NvPar(26, 0, -180, 180, PAR_S16, RW, PUB_ESP, FLAGS_NONE, S16)
    case 23 => NvPar(27, 90, 10, 1000, PAR_S16, RW, INST_ESP, FLAGS_NONE, S16)
    case 24 => NvPar(28, 0, 0, 1000000, PAR_S32, RW, INST_ESP, FLAGS_NONE, S32)
    case 25 => NvPar(30, 0, 0, 2000000, PAR_S32, RW, INST_ESP, FLAGS_NONE, S32)
    case 26 => NvPar(32, 40, 0, 100, PAR_U16, RW, PUB_ESP, FLAGS_NONE, U16)
    case 27 => NvPar(33, 1, 0, 1, PAR_U16, RW, PUB_ESP, BOOL_FLAG, U16)
    case 28 => NvPar(34, 5, 2, 180, PAR_U16, RW, PUB_ESP, FLAGS_NONE, U16)
    case 29 => NvPar(35, 10, 2, 3600, PAR_U16, RW, PUB_ESP, COMM_PERIOD_FLAG, U16)
    case 30 => FunPar(200, 255, 0, 0, PAR_U16, RW, INST, FLAGS_NONE, MacAddr, Nv)
    case 31 => Plain(203, 1, 1, 13, PAR_U16, R, PUB, FLAGS_NONE, U16, Rtc)
    case 32 => NvPar(300, 0, 0, 46, PAR_STRING, RW, PUB, FLAGS_NONE, Text)
    case 33 => Plain(323, 0, 0, 20, PAR_STRING, R, PUB, FLAGS_NONE, Text, Ram)
    case 34 => FunPar(400, 0, 0, 100, PAR_U16, R, PUB, FLAGS_NONE, ErrLog, Nv)
    case 35 => Plain(36, MAIN_REVISION, MAIN_REVISION, UINT16_MAX, PAR_U16, R, PUB_ESP, FW_VERSION_FLAG, U16, Ram)
    case 36 => Plain(37, 0, 0, 1, PAR_U16, RW, INST_ESP, BOOL_FLAG, U16, Ram)
    case 37 => Plain(1001, 0, 0, 30, PAR_STRING, R, PUB, FLAGS_NONE, Text, Ram)
    case _ => Plain(1016, 4, 0, 6, PAR_U16, R, PUB, FLAGS_NONE, U16, Ram)
  }

  /** The `ptxt` of entry `i`: the register's name. */
  function Name(i: nat): string
    requires i < NMR_PARAMETERS
  {
    match i
    case 0 => "StavZarizeni"
    case 1 => "StavKrmitka"
    case 2 => "ManualniOvladani"
    case 3 => "KalibracePrazdne"
    case 4 => "KalibracePlne"
    case 5 => "ChybovyKod"
    case 6 => "AktualniVaha"
    case 7 => "AktualniVaha_proc"
    case 8 => "PosledniCasOtevreni"
    case 9 => "PosledniCasZavreni"
    case 10 => "CasOtevreni"
    case 11 => "CasZavreni"
    case 12 => "NapetiBaterie_mV"
    case 13 => "AktualniProud_mA"
    case 14 => "PovelOd"
    case 15 => "CasVychodu"
    case 16 => "CasZapadu"
    case 17 => "PosledniCasOtevreni_S"
    case 18 => "PosledniCasZavreni_S"
    case 19 => "AutomatikaOtevreni"
    case 20 => "AutomatikaZavreni"
    case 21 => "ZpozdeniOtevreni"
    case 22 => "ZpozdeniZavreni"
    case 23 => "MotorMaxProud_mA"
    case 24 => "VahaPrazdne"
    case 25 => "VahaPlne"
    case 26 => "UrovenDoplneni_proc"
    case 27 => "AutomatikaDoplnovani"
    case 28 => "CasProDoplneni_M"
    case 29 => "PeriodaKomunikace_S"
    case 30 => "MasterMacAdresa"
    case 31 => "WiFiKanal"
    case 32 => "PopisCasu"
    case 33 => "AktualniCas"
    case 34 => "LogHistory"
    case 35 => "VerzeFW"
    case 36 => "RestartCmd"
    case 37 => "CompDate"
    case _ => "ResetReason"
  }

  const TABLE: seq<ParDef> := seq(NMR_PARAMETERS, i requires 0 <= i < NMR_PARAMETERS => Def(i))

  /** The first and one-past-last register address of entry `i`. */
  function Start(i: nat): int
    requires i < NMR_PARAMETERS
  {
    Def(i).adr
  }

  function End(i: nat): int
    requires i < NMR_PARAMETERS
  {
    Def(i).adr + Size(Def(i))
  }

  /** The match test of `GetPar`: `adr == Radr`, or `Radr` inside a multi-unit span. */
  predicate InSpan(i: nat, a: int)
    requires i < NMR_PARAMETERS
  {
    Start(i) == a || (Start(i) < a && a < End(i))
  }

  predicate IsEspNow(d: ParDef)
  {
    d.dsc & PAR_ESPNOW != 0
  }

  /** What holds of every entry: a footprint of at least one unit inside the address space, defaults that fit their unit casts, Par_ESPNow entries inside 2 .. 37, the command register only at `ManualniOvladani`, and time registers read-only. */
  predicate EntryFacts(i: nat)
    requires i < NMR_PARAMETERS
  {
    && 1 <= Size(Def(i)) && End(i) <= 0x1_0000
    && (IsUnsigned16(Def(i).kind) ==> 0 <= Def(i).def <= INT16_MAX)
    && (Def(i).kind == S16 ==> INT16_MIN <= Def(i).def <= INT16_MAX)
    && (Def(i).kind == MacAddr ==> 0 <= Def(i).def <= 255)
    && (IsEspNow(Def(i)) ==> 2 <= Start(i) && End(i) <= 38)
    && (Def(i).kind == Command ==> i == ManualniOvladani)
    && (Def(i).kind == Clock ==> !IsWritable(Def(i)))
  }

  lemma EntryFactsFrom0()
    ensures forall i :: 0 <= i < 4 ==> EntryFacts(i)
  {
    forall i | 0 <= i < 4
      ensures EntryFacts(i)
    {
      if i == 0 {
      } else if i == 1 {
      } else if i == 2 {
      } else {
        assert i == 3;
      }
    }
  }

  lemma EntryFactsFrom4()
    ensures forall i :: 4 <= i < 8 ==> EntryFacts(i)
  {
    forall i | 4 <= i < 8
      ensures EntryFacts(i)
    {
      if i == 4 {
      } else if i == 5 {
      } else if i == 6 {
      } else {
        assert i == 7;
      }
    }
  }

  lemma EntryFactsFrom8()
    ensures forall i :: 8 <= i < 12 ==> EntryFacts(i)
  {
    forall i | 8 <= i < 12
      ensures EntryFacts(i)
    {
      if i == 8 {
      } else if i == 9 {
      } else if i == 10 {
      } else {
        assert i == 11;
      }
    }
  }

  lemma EntryFactsFrom12()
    ensures forall i :: 12 <= i < 16 ==> EntryFacts(i)
  {
    forall i | 12 <= i < 16
      ensures EntryFacts(i)
    {
      if i == 12 {
      } else if i == 13 {
      } else if i == 14 {
      } else {
        assert i == 15;
      }
    }
  }

  lemma EntryFactsFrom16()
    ensures forall i :: 16 <= i < 20 ==> EntryFacts(i)
  {
    forall i | 16 <= i < 20
      ensures EntryFacts(i)
    {
      if i == 16 {
      } else if i == 17 {
      } else if i == 18 {
      } else {
        assert i == 19;
      }
    }
  }

  lemma EntryFactsFrom20()
    ensures forall i :: 20 <= i < 24 ==> EntryFacts(i)
  {
    forall i | 20 <= i < 24
      ensures EntryFacts(i)
    {
      if i == 20 {
      } else if i == 21 {
      } else if i == 22 {
      } else {
        assert i == 23;
      }
    }
  }

  lemma EntryFactsFrom24()
    ensures forall i :: 24 <= i < 28 ==> EntryFacts(i)
  {
    forall i | 24 <= i < 28
      ensures EntryFacts(i)
    {
      if i == 24 {
      } else if i == 25 {
      } else if i == 26 {
      } else {
        assert i == 27;
      }
    }
  }

  lemma EntryFactsFrom28()
    ensures forall i :: 28 <= i < 32 ==> EntryFacts(i)
  {
    forall i | 28 <= i < 32
      ensures EntryFacts(i)
    {
      if i == 28 {
      } else if i == 29 {
      } else if i == 30 {
      } else {
        assert i == 31;
      }
    }
  }

  lemma EntryFactsFrom32()
    ensures forall i :: 32 <= i < 36 ==> EntryFacts(i)
  {
    forall i | 32 <= i < 36
      ensures EntryFacts(i)
    {
      if i == 32 {
      } else if i == 33 {
      } else if i == 34 {
      } else {
        assert i == 35;
      }
    }
  }

  lemma EntryFactsFrom36()
    ensures forall i :: 36 <= i < 39 ==> EntryFacts(i)
  {
    forall i | 36 <= i < 39
      ensures EntryFacts(i)
    {
      if i == 36 {
      } else if i == 37 {
      } else {
        assert i == 38;
      }
    }
  }

  lemma EntryFactsAt(i: nat)
    requires i < NMR_PARAMETERS
    ensures EntryFacts(i)
  {
    EntryFactsFrom0();
    EntryFactsFrom4();
    EntryFactsFrom8();
    EntryFactsFrom12();
    EntryFactsFrom16();
    EntryFactsFrom20();
    EntryFactsFrom24();
    EntryFactsFrom28();
    EntryFactsFrom32();
    EntryFactsFrom36();
  }

  lemma TableShape()
    ensures |TABLE| == NMR_PARAMETERS
    ensures forall i :: 0 <= i < NMR_PARAMETERS ==> TABLE[i] == Def(i)
  {
  }

  /** The table index at place `k` in ascending address order. */
  function ByAddress(k: nat): (i: nat)
    ensures i < NMR_PARAMETERS
  {
    match k
    case 0 => 0
    case 1 => 1
    case 2 => 2
    case 3 => 3
    case 4 => 4
    case 5 => 5
    case 6 => 6
    case 7 => 7
    case 8 => 8
    case 9 => 9
    case 10 => 10
    case 11 => 11
    case 12 => 12
    case 13 => 19
    case 14 => 20
    case 15 => 21
    case 16 => 22
    case 17 => 23
    case 18 => 24
    case 19 => 25
    case 20 => 26
    case 21 => 27
    case 22 => 28
    case 23 => 29
    case 24 => 35
    case 25 => 36
    case 26 => 13
    case 27 => 14
    case 28 => 15
    case 29 => 16
    case 30 => 17
    case 31 => 18
    case 32 => 30
    case 33 => 31
    case 34 => 32
    case 35 => 33
    case 36 => 34
    case 37 => 37
    case _ => 38
  }

  /** The place of table index `i` in ascending address order. */
  function Place(i: nat): (k: nat)
    ensures k < NMR_PARAMETERS
  {
    match i
    case 0 => 0
    case 1 => 1
    case 2 => 2
    case 3 => 3
    case 4 => 4
    case 5 => 5
    case 6 => 6
    case 7 => 7
    case 8 => 8
    case 9 => 9
    case 10 => 10
    case 11 => 11
    case 12 => 12
    case 13 => 26
    case 14 => 27
    case 15 => 28
    case 16 => 29
    case 17 => 30
    case 18 => 31
    case 19 => 13
    case 20 => 14
    case 21 => 15
    case 22 => 16
    case 23 => 17
    case 24 => 18
    case 25 => 19
    case 26 => 20
    case 27 => 21
    case 28 => 22
    case 29 => 23
    case 30 => 32
    case 31 => 33
    case 32 => 34
    case 33 => 35
    case 34 => 36
    case 35 => 24
    case 36 => 25
    case 37 => 37
    case _ => 38
  }

  lemma PlacesInverse()
    ensures forall i :: 0 <= i < NMR_PARAMETERS ==> ByAddress(Place(i)) == i
  {
  }

  /** The span at place `k` in address order is not empty and ends before the next one starts. */
  predicate Neighbours(k: nat)
  {
    Start(ByAddress(k)) < End(ByAddress(k)) <= Start(ByAddress(k + 1))
  }

  lemma NeighboursFrom0()
    ensures forall k :: 0 <= k < 10 ==> Neighbours(k)
  {
    forall k | 0 <= k < 10
      ensures Neighbours(k)
    {
      if k == 0 {

      } else if k == 1 {

      } else if k == 2 {

      } else if k == 3 {

      } else if k == 4 {

      } else if k == 5 {

      } else if k == 6 {

      } else if k == 7 {

      } else if k == 8 {
      } else {
        assert k == 9;
      }
    }
  }

  lemma NeighboursFrom10()
    ensures forall k :: 10 <= k < 20 ==> Neighbours(k)
  {
    forall k | 10 <= k < 20
      ensures Neighbours(k)
    {
      if k == 10 {

      } else if k == 11 {

      } else if k == 12 {

      } else if k == 13 {

      } else if k == 14 {

      } else if k == 15 {

      } else if k == 16 {

      } else if k == 17 {

      } else if k == 18 {
      } else {
        assert k == 19;
      }
    }
  }

  lemma NeighboursFrom20()
    ensures forall k :: 20 <= k < 30 ==> Neighbours(k)
  {
    forall k | 20 <= k < 30
      ensures Neighbours(k)
    {
      if k == 20 {

      } else if k == 21 {

      } else if k == 22 {

      } else if k == 23 {

      } else if k == 24 {

      } else if k == 25 {

      } else if k == 26 {

      } else if k == 27 {

      } else if k == 28 {
      } else {
        assert k == 29;
      }
    }
  }

  lemma NeighboursFrom30()
    ensures forall k :: 30 <= k < 38 ==> Neighbours(k)
  {
    forall k | 30 <= k < 38
      ensures Neighbours(k)
    {
      if k == 30 {

      } else if k == 31 {

      } else if k == 32 {

      } else if k == 33 {

      } else if k == 34 {

      } else if k == 35 {

      } else if k == 36 {
      } else {
        assert k == 37;
      }
    }
  }

  /** Every pair of neighbours in address order is ordered. */
  lemma ChainHolds()
    ensures forall k :: 0 <= k < NMR_PARAMETERS - 1 ==> Neighbours(k)
  {
    NeighboursFrom0();
    NeighboursFrom10();
    NeighboursFrom20();
    NeighboursFrom30();
  }

  lemma NeighbourAt(k: nat)
    requires k + 1 < NMR_PARAMETERS
    ensures Start(ByAddress(k)) < End(ByAddress(k)) <= Start(ByAddress(k + 1))
  {
    ChainHolds();
    assert Neighbours(k);
  }

  /** Spans chained in ascending order: every later span starts after every earlier one ends. */
  lemma ChainOrdered(k: nat, l: nat)
    requires k < l < NMR_PARAMETERS
    ensures End(ByAddress(k)) <= Start(ByAddress(l))
  {
    var starts := seq(NMR_PARAMETERS, m requires 0 <= m < NMR_PARAMETERS => Start(ByAddress(m)));
    var ends := seq(NMR_PARAMETERS, m requires 0 <= m < NMR_PARAMETERS => End(ByAddress(m)));
    forall m | 0 <= m < NMR_PARAMETERS - 1
      ensures starts[m] < ends[m] <= starts[m + 1]
    {
      NeighbourAt(m);
    }
    SortedChain(starts, ends, k, l);
  }

  /** In a chain of non-empty intervals, each ending before the next starts, later intervals start after earlier ones end. */
  lemma {:induction false} SortedChain(starts: seq<int>, ends: seq<int>, k: nat, l: nat)
    requires |starts| == |ends| && k < l < |starts|
    requires forall m :: 0 <= m < |starts| - 1 ==> starts[m] < ends[m] <= starts[m + 1]
    ensures ends[k] <= starts[l]
    decreases l - k
  {
    if l > k + 1 {
      SortedChain(starts, ends, k, l - 1);
      assert ends[l - 1] <= starts[l];
    }
  }

  /** No two register spans share an address. */
  lemma SpansDisjoint(i: nat, j: nat)
    requires i < NMR_PARAMETERS && j < NMR_PARAMETERS && i != j
    ensures End(i) <= Start(j) || End(j) <= Start(i)
  {
    PlaceAt(i);
    PlaceAt(j);
    var p, q := Place(i), Place(j);
    if p < q {
      ChainOrdered(p, q);
    } else {
      ChainOrdered(q, p);
    }
  }

  lemma PlaceAt(i: nat)
    requires i < NMR_PARAMETERS
    ensures ByAddress(Place(i)) == i
  {
    PlacesInverse();
  }

  lemma SpanNonEmpty(i: nat)
    requires i < NMR_PARAMETERS
    ensures Start(i) < End(i)
  {
    EntryFactsAt(i);
  }

  /** An address lies in the span of at most one register. */
  lemma SpanOwnerUnique(a: int, i: nat, j: nat)
    requires i < NMR_PARAMETERS && j < NMR_PARAMETERS
    requires InSpan(i, a) && InSpan(j, a)
    ensures i == j
  {
    if i != j {
      SpansDisjoint(i, j);
      SpanNonEmpty(i);
      SpanNonEmpty(j);
    }
  }

  /** The `Par_ESPNow` registers all lie in addresses 2 .. 37. */
  lemma EspNowSpan()
    ensures forall i :: 0 <= i < NMR_PARAMETERS && IsEspNow(Def(i)) ==> 2 <= Start(i) && End(i) <= 38
  {
    forall i | 0 <= i < NMR_PARAMETERS && IsEspNow(Def(i)) {
      EntryFactsAt(i);
    }
  }

  /** One `Par_ESPNow` register lies in addresses 2 .. 37. */
  lemma EspNowAt(i: nat)
    requires i < NMR_PARAMETERS && IsEspNow(Def(i))
    ensures 2 <= Start(i) && End(i) <= 38
  {
    EntryFactsAt(i);
  }

  /** The manual command register is the one command register, ranging over stop .. close. */
  lemma ManualCommandRegister()
    ensures Def(ManualniOvladani).kind == Command && IsWritable(Def(ManualniOvladani))
    ensures Def(ManualniOvladani).min == 0 && Def(ManualniOvladani).max == 2
    ensures forall i :: 0 <= i < NMR_PARAMETERS && Def(i).kind == Command ==> i == ManualniOvladani
  {
    forall i | 0 <= i < NMR_PARAMETERS && Def(i).kind == Command {
      EntryFactsAt(i);
    }
  }

  /** Feeder state, error code and radio channel refuse register writes. */
  lemma ReadOnlyStatus()
    ensures !IsWritable(Def(StavKrmitka)) && !IsWritable(Def(ChybovyKod)) && !IsWritable(Def(WiFiKanal))
  {
  }

  /** The radio channel register ranges over the scanned channels 1 .. 13. */
  lemma ChannelRange()
    ensures Def(WiFiKanal).min == 1 && Def(WiFiKanal).max == 13
  {
  }

  /** Defaults are not always within the limits. */
  lemma DefaultsOutsideLimits()
    ensures !CheckLimits(Def(AktualniVahaProc), Def(AktualniVahaProc).def)
    ensures !CheckLimits(Def(NapetiBaterie), Def(NapetiBaterie).def)
  {
  }

  /** The feeder state survives deep sleep and starts as the unknown position. */
  lemma StateRetained()
    ensures Def(StavKrmitka).store == Rtc && Def(StavKrmitka).def == 0
  {
  }

  /** Each 16-bit register's default fits the int16 cast its reset applies. */
  lemma DefaultsFitUnits()
    ensures forall i :: 0 <= i < NMR_PARAMETERS && IsUnsigned16(Def(i).kind) ==> 0 <= Def(i).def <= INT16_MAX
    ensures forall i :: 0 <= i < NMR_PARAMETERS && Def(i).kind == S16 ==> INT16_MIN <= Def(i).def <= INT16_MAX
    ensures forall i :: 0 <= i < NMR_PARAMETERS && Def(i).kind == MacAddr ==> 0 <= Def(i).def <= 255
  {
    forall i | 0 <= i < NMR_PARAMETERS {
      EntryFactsAt(i);
    }
  }
}
