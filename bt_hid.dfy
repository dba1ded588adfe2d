/** The adapter's Bluetooth connection and pairing state (`bt_state` in the
    C code): which console it is paired with, whether its two L2CAP
    channels are open, and what the pairing file holds. The socket calls are
    left to the caller: `Connect` is told what the two `l2cap_connect_psm`
    calls returned, `Init` whether the HCI device could be opened and which
    address it reported. */
module BtHid {
  import opened Bytes
  import opened MacAddress
  import opened Pairing

  /** `bt_state_t`. */
  datatype BtState = Idle | WaitingForMac | Ready | Connecting | Connected | Error

  /** `bt_hid_state_str`. */
  function StateStr(s: BtState): (name: string)
    ensures name != "UNKNOWN"
  {
    match s
      case Idle => "IDLE"
      case WaitingForMac => "WAITING_FOR_USB_PAIRING"
      case Ready => "READY"
      case Connecting => "CONNECTING"
      case Connected => "CONNECTED"
      case Error => "ERROR"
  }

  /** Every state has a name of its own. */
  lemma StateStrInjective(a: BtState, b: BtState)
    requires StateStr(a) == StateStr(b)
    ensures a == b
  {
  }

  /** The part of `bt_state` the model follows, plus the pairing file (none
      when it does not exist) and the sockets closed so far. */
  datatype Snapshot = Snapshot(
    state: BtState,
    controlSock: int,
    interruptSock: int,
    ps3Mac: Mac,
    localMac: Mac,
    hasPs3Mac: bool,
    handshakeComplete: bool,
    ps3Enabled: bool,
    pairingFile: Option<string>,
    closed: seq<int>)

  /** The static initialiser of `bt_state`, with a given pairing file. */
  function Initial(file: Option<string>): (v: Snapshot)
    ensures v.state == Idle && !v.hasPs3Mac && v.controlSock == -1 && v.interruptSock == -1
  {
    Snapshot(Idle, -1, -1, ZERO_MAC, ZERO_MAC, false, false, false, file, [])
  }

  /** The consistency the operations keep: a connected adapter is paired and
      has both channels open; READY and CONNECTING are only reached when
      paired; WAITING_FOR_MAC means unpaired; an unpaired adapter holds the
      all-zero address. */
  predicate Inv(v: Snapshot)
  {
    (v.state == Connected ==> v.hasPs3Mac && v.controlSock >= 0 && v.interruptSock >= 0) &&
    (v.state == Ready || v.state == Connecting ==> v.hasPs3Mac) &&
    (v.state == WaitingForMac ==> !v.hasPs3Mac) &&
    (!v.hasPs3Mac ==> v.ps3Mac == ZERO_MAC)
  }

  /** What `bt_hid_load_pairing` finds in a pairing file. */
  function LoadedMac(file: Option<string>): (r: Option<Mac>)
    ensures r.None? <==>
      (file.None? || forall j :: 0 <= j < |FgetsLines(file.value)| ==> LineMac(FgetsLines(file.value)[j]).None?)
  {
    if file.None? then None
    else
      FirstMacNone(FgetsLines(file.value));
      FirstMac(FgetsLines(file.value))
  }

  /** The reference behaviour of `bt_hid_init` after the HCI device is
      open: the local address in display order, then the pairing file. */
  function InitSpec(v: Snapshot, bdaddr: Mac, hciOk: bool): (r: (Snapshot, int))
    ensures !hciOk ==> r == (v, -1)
    ensures hciOk ==> r.1 == 0 && r.0.localMac == Reverse(bdaddr)
    ensures hciOk ==> r.0.state == (if LoadedMac(v.pairingFile).Some? then Ready else WaitingForMac)
    ensures hciOk && LoadedMac(v.pairingFile).Some? ==>
      r.0.hasPs3Mac && r.0.ps3Mac == LoadedMac(v.pairingFile).value
    ensures hciOk && LoadedMac(v.pairingFile).None? ==>
      r.0.hasPs3Mac == v.hasPs3Mac && r.0.ps3Mac == v.ps3Mac
    ensures r.0.controlSock == v.controlSock && r.0.interruptSock == v.interruptSock &&
      r.0.closed == v.closed && r.0.pairingFile == v.pairingFile
  {
    if !hciOk then (v, -1)
    else
      var v1 := v.(localMac := Reverse(bdaddr));
      match LoadedMac(v.pairingFile)
        case Some(m) => (v1.(ps3Mac := m, hasPs3Mac := true, state := Ready), 0)
        case None => (v1.(state := WaitingForMac), 0)
  }

  /** The reference behaviour of `bt_hid_connect`, given what the two
      `l2cap_connect_psm` calls return (the second is made only if the first
      succeeded). */
  function ConnectSpec(v: Snapshot, ctrl: int, intr: int): (r: (Snapshot, int))
    ensures !v.hasPs3Mac ==> r == (v, -1)
    ensures v.hasPs3Mac && v.state == Connected ==> r == (v, 0)
    ensures r.1 == 0 ==> r.0.state == Connected
    ensures r.1 == -1 && v.hasPs3Mac ==> r.0.state == Error
    ensures r.0.ps3Mac == v.ps3Mac && r.0.hasPs3Mac == v.hasPs3Mac
    ensures v.hasPs3Mac && v.state != Connected && ctrl < 0 ==>
      r == (v.(state := Error), -1)
    ensures v.hasPs3Mac && v.state != Connected && ctrl >= 0 && intr < 0 ==>
      r.1 == -1 && r.0.closed == v.closed + [ctrl] &&
      r.0.controlSock == v.controlSock && r.0.interruptSock == v.interruptSock
    ensures v.hasPs3Mac && v.state != Connected && ctrl >= 0 && intr >= 0 ==>
      r.1 == 0 && r.0.controlSock == ctrl && r.0.interruptSock == intr &&
      !r.0.handshakeComplete && !r.0.ps3Enabled && r.0.closed == v.closed
    ensures r.0.localMac == v.localMac && r.0.pairingFile == v.pairingFile
  {
    if !v.hasPs3Mac then (v, -1)
    else if v.state == Connected then (v, 0)
    else if ctrl < 0 then (v.(state := Error), -1)
    else if intr < 0 then (v.(state := Error, closed := v.closed + [ctrl]), -1)
    else (v.(controlSock := ctrl, interruptSock := intr, state := Connected,
             handshakeComplete := false, ps3Enabled := false), 0)
  }

  /** The sockets among `socks` that are open. */
  function OpenOnes(socks: seq<int>): (r: seq<int>)
    ensures forall k :: 0 <= k < |r| ==> r[k] >= 0
  {
    if socks == [] then []
    else (if socks[0] >= 0 then [socks[0]] else []) + OpenOnes(socks[1..])
  }

  lemma {:induction false} OpenOnesPair(a: int, b: int)
    ensures OpenOnes([a, b]) == (if a >= 0 then [a] else []) + (if b >= 0 then [b] else [])
  {
    assert [a, b][1..] == [b];
    assert OpenOnes([b]) == (if b >= 0 then [b] else []) + OpenOnes([]);
  }

  /** The reference behaviour of `bt_hid_disconnect`. */
  function DisconnectSpec(v: Snapshot): (w: Snapshot)
    ensures w.controlSock == -1 && w.interruptSock == -1
    ensures v.state == Connected || v.state == Connecting ==>
      w.state == if v.hasPs3Mac then Ready else WaitingForMac
    ensures !(v.state == Connected || v.state == Connecting) ==> w.state == v.state
  {
    var st := if v.state == Connected || v.state == Connecting then
      (if v.hasPs3Mac then Ready else WaitingForMac) else v.state;
    v.(interruptSock := -1, controlSock := -1, state := st,
       closed := v.closed + OpenOnes([v.interruptSock, v.controlSock]))
  }

  /** The reference behaviour of `bt_hid_store_ps3_mac`. */
  function StoreSpec(v: Snapshot, mac: Mac): (w: Snapshot)
    ensures w.hasPs3Mac && w.ps3Mac == mac
    ensures w.state == if v.state == WaitingForMac then Ready else v.state
  {
    v.(ps3Mac := mac, hasPs3Mac := true, pairingFile := Some(SaveContent(mac, v.localMac)),
       state := if v.state == WaitingForMac then Ready else v.state)
  }

  /** The reference behaviour of `bt_hid_clear_pairing`. */
  function ClearSpec(v: Snapshot): (w: Snapshot)
    ensures !w.hasPs3Mac && w.ps3Mac == ZERO_MAC && w.state == WaitingForMac && w.pairingFile.None?
  {
    v.(ps3Mac := ZERO_MAC, hasPs3Mac := false, state := WaitingForMac, pairingFile := None)
  }

  /** `bt_hid_get_ps3_mac`: the address when paired. */
  function GetPs3Mac(v: Snapshot): (r: Option<Mac>)
    ensures r.Some? <==> v.hasPs3Mac
    ensures r.Some? ==> r.value == v.ps3Mac
  {
    if v.hasPs3Mac then Some(v.ps3Mac) else None
  }

  /** Start-up from the static state keeps the consistency. */
  lemma {:induction false} InitKeepsInv(file: Option<string>, bdaddr: Mac, hciOk: bool)
    ensures Inv(InitSpec(Initial(file), bdaddr, hciOk).0)
  {
  }

  /** Every operation keeps the consistency. */
  lemma {:induction false} OperationsKeepInv(v: Snapshot, ctrl: int, intr: int, mac: Mac)
    requires Inv(v)
    ensures Inv(ConnectSpec(v, ctrl, intr).0)
    ensures Inv(DisconnectSpec(v))
    ensures Inv(StoreSpec(v, mac))
    ensures Inv(ClearSpec(v))
  {
  }

  /** Disconnecting twice is disconnecting once. */
  lemma {:induction false} DisconnectIdempotent(v: Snapshot)
    ensures DisconnectSpec(DisconnectSpec(v)) == DisconnectSpec(v)
  {
    assert OpenOnes([-1, -1]) == [];
    assert DisconnectSpec(v).closed + [] == DisconnectSpec(v).closed;
  }

  /** A connection made and then dropped leaves the adapter READY with both
      channels closed, interrupt first. */
  lemma {:induction false} ConnectThenDisconnect(v: Snapshot, ctrl: int, intr: int)
    requires Inv(v) && v.hasPs3Mac && v.state != Connected && ctrl >= 0 && intr >= 0
    ensures var w := DisconnectSpec(ConnectSpec(v, ctrl, intr).0);
      w.state == Ready && w.controlSock == -1 && w.interruptSock == -1 &&
      w.closed == v.closed + [intr, ctrl]
  {
    assert OpenOnes([intr, ctrl]) == [intr, ctrl] by {
      assert OpenOnes([ctrl]) == [ctrl] + OpenOnes([]);
      assert [intr, ctrl][1..] == [ctrl];
    }
  }

  /** A console address stored before a restart is the one the adapter
      comes back paired with. */
  lemma {:induction false} StoreSurvivesRestart(v: Snapshot, mac: Mac, bdaddr: Mac)
    ensures var file := StoreSpec(v, mac).pairingFile;
      var w := InitSpec(Initial(file), bdaddr, true).0;
      w.state == Ready && w.hasPs3Mac && w.ps3Mac == mac
  {
    PairingRoundTrip(mac, v.localMac);
  }

  /** Clearing the pairing forgets the address across a restart too. */
  lemma {:induction false} ClearSurvivesRestart(v: Snapshot, bdaddr: Mac)
    ensures var file := ClearSpec(v).pairingFile;
      var w := InitSpec(Initial(file), bdaddr, true).0;
      w.state == WaitingForMac && !w.hasPs3Mac && GetPs3Mac(w).None?
  {
  }

  /** The file-scope `bt_state` structure of `bt_hid.c`. */
  class Adapter {
    var state: BtState
    var controlSock: int
    var interruptSock: int
    var ps3Mac: Mac
    var localMac: Mac
    var hasPs3Mac: bool
    var handshakeComplete: bool
    var ps3Enabled: bool
    var pairingFile: Option<string>
    var closed: seq<int>

    function View(): Snapshot
      reads this
    {
      Snapshot(state, controlSock, interruptSock, ps3Mac, localMac, hasPs3Mac,
                 handshakeComplete, ps3Enabled, pairingFile, closed)
    }

    constructor (file: Option<string>)
      ensures View() == Initial(file)
    {
      state := Idle;
      controlSock := -1;
      interruptSock := -1;
      ps3Mac := ZERO_MAC;
      localMac := ZERO_MAC;
      hasPs3Mac := false;
      handshakeComplete := false;
      ps3Enabled := false;
      pairingFile := file;
      closed := [];
    }

    /** `bt_hid_init` from the point where the HCI device is open. */
    method Init(bdaddr: Mac, hciOk: bool) returns (r: int)
      modifies this
      ensures (View(), r) == InitSpec(old(View()), bdaddr, hciOk)
    {
      if !hciOk {
        return -1;
      }
      localMac := Reverse(bdaddr);
      var lines := if pairingFile.None? then [] else FgetsLines(pairingFile.value);
      var loaded := LoadPairing(lines);
      if loaded.Some? {
        ps3Mac := loaded.value;
        hasPs3Mac := true;
        state := Ready;
      } else {
        state := WaitingForMac;
      }
      return 0;
    }

    /** `bt_hid_connect`. */
    method Connect(ctrl: int, intr: int) returns (r: int)
      modifies this
      ensures (View(), r) == ConnectSpec(old(View()), ctrl, intr)
    {
      if !hasPs3Mac {
        return -1;
      }
      if state == Connected {
        return 0;
      }
      state := Connecting;
      if ctrl < 0 {
        state := Error;
        return -1;
      }
      if intr < 0 {
        closed := closed + [ctrl];
        state := Error;
        return -1;
      }
      controlSock := ctrl;
      interruptSock := intr;
      state := Connected;
      handshakeComplete := false;
      ps3Enabled := false;
      return 0;
    }

    /** `bt_hid_disconnect`. */
    method Disconnect()
      modifies this
      ensures View() == DisconnectSpec(old(View()))
    {
      ghost var v := View();
      OpenOnesPair(interruptSock, controlSock);
      if interruptSock >= 0 {
        closed := closed + [interruptSock];
        interruptSock := -1;
      }
      if controlSock >= 0 {
        closed := closed + [controlSock];
        controlSock := -1;
      }
      if state == Connected || state == Connecting {
        state := if hasPs3Mac then Ready else WaitingForMac;
      }
      interruptSock := -1;
      controlSock := -1;
      assert closed == v.closed + OpenOnes([v.interruptSock, v.controlSock]);
    }

    /** `bt_hid_store_ps3_mac`, which also saves the pairing file. */
    method StorePs3Mac(mac: Mac)
      modifies this
      ensures View() == StoreSpec(old(View()), mac)
    {
      ps3Mac := mac;
      hasPs3Mac := true;
      pairingFile := Some(SaveContent(ps3Mac, localMac));
      if state == WaitingForMac {
        state := Ready;
      }
    }

    /** `bt_hid_clear_pairing`, which also removes the pairing file. */
    method ClearPairing()
      modifies this
      ensures View() == ClearSpec(old(View()))
    {
      ps3Mac := ZERO_MAC;
      hasPs3Mac := false;
      state := WaitingForMac;
      pairingFile := None;
    }

    /** `bt_hid_get_ps3_mac`: the caller's buffer `out0` is overwritten
        with the address when paired, and left alone otherwise. */
    method GetPs3MacInto(out0: Mac) returns (r: int, out: Mac)
      ensures r == 0 || r == -1
      ensures r == 0 <==> hasPs3Mac
      ensures out == if hasPs3Mac then ps3Mac else out0
    {
      if !hasPs3Mac {
        return -1, out0;
      }
      return 0, ps3Mac;
    }

    /** `bt_hid_is_connected`. */
    function IsConnected(): (b: bool)
      reads this
      ensures b <==> state == Connected
    {
      state == Connected
    }
  }
}
