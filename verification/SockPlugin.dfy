/** `struct sock_plugin` and the functions of `socket.c` that send to a plugin. */
module SockPlugins {
  import opened Wire
  import opened Transport
  import opened PluginPort

  class SockPlugin {
    const sender: PartialSender
    var slot: Int32
    var dropped: bool
    var slotDropped: bool
    var error: UInt32
    var resetall: bool
    var devEvents: seq<DevEvent>
    ghost var log: seq<Mark>

    predicate Valid()
      reads this, sender
    {
      sender.Valid()
    }

    ghost function View(): Port
      requires Valid()
      reads this, sender, sender.socket, sender.partialBuffer
    {
      Port(sender.State(), slot, dropped, slotDropped, error, resetall, devEvents, log)
    }

    /** The set-up in `server_accept`. */
    constructor (socket: Socket)
      ensures Valid() && sender.socket == socket && fresh(sender) && fresh(sender.partialBuffer)
      ensures socket.wire == [] && socket.open ==> View() == Accept(socket.script)
    {
      sender := new PartialSender(socket);
      slot := INPUTSLOT_INVALID;
      dropped, slotDropped, error := false, false, 0;
      resetall, devEvents := false, [];
      log := [];
    }

    method Transmit(ghost origin: Origin, rec: Record) returns (ok: bool)
      requires Valid()
      modifies this`log, sender`delayed, sender.socket, sender.partialBuffer
      ensures Valid()
      ensures (View(), ok) == Try(old(View()), origin, rec)
    {
      ok := sender.SendToPlugin(rec);
      log := log + [Tried(origin, rec, ok)];
    }

    /** The loop over `dev_events` that both queueing functions start with. */
    method FindEntry(s: Byte) returns (i: nat)
      ensures i == Find(devEvents, s)
    {
      i := 0;
      while i < |devEvents| && devEvents[i].slot != s
        invariant i <= |devEvents|
        invariant Find(devEvents, s) == i + Find(devEvents[i..], s)
      {
        i := i + 1;
      }
    }

    /** `add_queue_dev_event_conf`. */
    method AddQueueDevEventConf(s: Byte)
      modifies this`devEvents
      ensures devEvents == QueueConf(old(devEvents), s)
    {
      var i := FindEntry(s);
      if i < |devEvents| {
        devEvents := devEvents[i := devEvents[i].(add := true)];
        return;
      }
      devEvents := devEvents + [DevEvent(s, false, true)];
    }

    /** `add_queue_dev_event_reset`. */
    method AddQueueDevEventReset(s: Byte)
      modifies this`devEvents, this`resetall
      ensures resetall == (old(resetall) || s == ALL_SLOTS)
      ensures devEvents == if s == ALL_SLOTS then old(devEvents) else QueueReset(old(devEvents), s)
    {
      if s == ALL_SLOTS {
        resetall := true;
        return;
      }
      var i := FindEntry(s);
      if i < |devEvents| {
        if devEvents[i].add {
          devEvents := devEvents[i := devEvents[i].(add := false)];
          return;
        }
        devEvents := devEvents[i := devEvents[i].(remove := true)];
        return;
      }
      devEvents := devEvents + [DevEvent(s, true, false)];
    }

    /** `flush_queued_dev_events`. */
    method FlushQueuedDevEvents() returns (ok: bool)
      requires Valid()
      modifies this`log, this`devEvents, sender`delayed, sender.socket, sender.partialBuffer
      ensures Valid()
      ensures (View(), ok) == Flush(old(View()))
    {
      ghost var goal := Flush(View());
      var i := |devEvents| - 1;
      while i > -1
        invariant Valid() && i == |devEvents| - 1
        invariant Flush(View()) == goal
        decreases i
      {
        ghost var before := View();
        if devEvents[i].remove {
          ok := Transmit(Control, Record(EV_DEV, DEV_RESET, devEvents[i].slot));
          if !ok {
            return;
          }
          devEvents := devEvents[i := devEvents[i].(remove := false)];
        }
        if devEvents[i].add {
          ok := Transmit(Control, Record(EV_DEV, DEV_CONF, devEvents[i].slot));
          if !ok {
            return;
          }
          devEvents := devEvents[i := devEvents[i].(add := false)];
        }
        devEvents := devEvents[..i];
        assert (View(), true) == FlushLast(before);
        i := i - 1;
      }
      ok := true;
    }

    /** `send_plugin_dev_event`. */
    method SendPluginDevEvent(code: UInt16, value: Byte)
      requires Valid()
      modifies this, sender`delayed, sender.socket, sender.partialBuffer
      ensures Valid() && View() == SendDev(old(View()), code, value)
    {
      log := log + [Asked(code, value)];
      SendDevEvent(code, value);
    }

    method SendDevEvent(code: UInt16, value: Byte)
      requires Valid()
      modifies this, sender`delayed, sender.socket, sender.partialBuffer
      ensures Valid() && View() == SendDevBody(old(View()), code, value)
      decreases resetall
    {
      var ok := SendHeadRecord(code, value);
      if !ok {
        QueueForLater(code, value);
      } else if resetall {
        resetall := false;
        SendDevEvent(code, value);
      }
    }

    method SendHeadRecord(code: UInt16, value: Byte) returns (ok: bool)
      requires Valid()
      modifies this`log, this`devEvents, sender`delayed, sender.socket, sender.partialBuffer
      ensures Valid()
      ensures (View(), ok) == SendHead(old(View()), code, value)
    {
      var er := if resetall then RESET_ALL else Record(EV_DEV, code, value);
      ok := PrepareQueue(code, value);
      if ok {
        ok := Transmit(Control, er);
      }
    }

    method PrepareQueue(code: UInt16, value: Byte) returns (ok: bool)
      requires Valid()
      modifies this`log, this`devEvents, sender`delayed, sender.socket, sender.partialBuffer
      ensures Valid()
      ensures (View(), ok) == Prepare(old(View()), code, value)
    {
      ok := true;
      if code == DEV_RESET && value == ALL_SLOTS {
        devEvents := [];
      } else if devEvents != [] {
        ok := FlushQueuedDevEvents();
      }
    }

    method QueueForLater(code: UInt16, value: Byte)
      requires Valid()
      modifies this`devEvents, this`resetall
      ensures Valid() && View() == Enqueue(old(View()), code, value)
    {
      if code == DEV_CONF {
        AddQueueDevEventConf(value);
      } else if code == DEV_RESET {
        AddQueueDevEventReset(value);
      }
    }

    method AnnounceLoss() returns (ok: bool)
      requires Valid()
      modifies this`dropped, this`log, sender`delayed, sender.socket, sender.partialBuffer
      ensures Valid()
      ensures (View(), ok) == Announce(old(View()))
    {
      if !dropped {
        return true;
      }
      ok := Transmit(Control, DROPPED);
      dropped := !ok;
    }

    /** `send_slot`. */
    method SelectSlot(s: Int32)
      requires Valid()
      modifies this`slot, this`dropped, this`slotDropped, this`log
      modifies sender`delayed, sender.socket, sender.partialBuffer
      ensures Valid() && View() == SendSlot(old(View()), s)
    {
      var ok := AnnounceLoss();
      if !ok {
        slotDropped := true;
        return;
      }
      ok := Transmit(Control, SetSlot(s));
      if ok {
        slot := s;
        dropped := slotDropped;
        slotDropped := false;
      } else {
        slotDropped := true;
      }
    }

    method SendPendingState() returns (ok: bool)
      requires Valid()
      modifies this`error, this`resetall, this`devEvents, this`log
      modifies sender`delayed, sender.socket, sender.partialBuffer
      ensures Valid()
      ensures (View(), ok) == SendPending(old(View()))
    {
      if error != 0 {
        ok := Transmit(Control, Record(EV_VM, VM_ERROR, error));
        if !ok {
          return;
        }
        error := 0;
      }
      if resetall {
        ok := Transmit(Control, RESET_ALL);
        if !ok {
          return;
        }
        resetall := false;
      }
      if devEvents != [] {
        ok := FlushQueuedDevEvents();
        if !ok {
          return;
        }
      }
      ok := true;
    }

    /** The end of `send_plugin_event`, from the test of `dropped` on. */
    method SendEventOnSlot(s: Int32, e: Record)
      requires Valid()
      modifies this`dropped, this`log, sender`delayed, sender.socket, sender.partialBuffer
      ensures Valid() && View() == SendOnSlot(old(View()), s, e)
    {
      var ok := AnnounceLoss();
      if ok {
        ok := Transmit(Input(s), e);
        if !ok {
          dropped := true;
        }
      }
      if !ok {
        log := log + [Lost(s)];
      }
    }

    /** `send_plugin_event`. */
    method SendPluginEvent(s: Int32, e: Record)
      requires Valid()
      modifies this, sender`delayed, sender.socket, sender.partialBuffer
      ensures Valid() && View() == SendEvent(old(View()), s, e)
    {
      log := log + [Called];
      var ready := SendPendingState();
      if !ready {
        if slot != s {
          slotDropped := true;
        } else {
          dropped := true;
        }
        log := log + [Lost(s)];
        return;
      }
      if slot != s {
        SelectSlot(s);
      }
      SendEventOnSlot(s, e);
    }

    /** `send_error`. */
    method ReportError(value: UInt32)
      requires Valid()
      modifies this`error, this`log, sender`delayed, sender.socket, sender.partialBuffer
      ensures Valid() && View() == SendError(old(View()), value)
    {
      log := log + [Reported(value)];
      var ok := Transmit(Control, Record(EV_VM, VM_ERROR, value));
      if !ok && error == 0 {
        error := value;
      }
    }
  }
}
