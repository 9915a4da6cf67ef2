/** The part of a libusb context that event_data_lock protects, together with
    the event pipe that interrupts poll().  Each function is one block of code
    that runs with the lock held; the class Context below performs the same
    blocks in place, field by field. */
module EventData {

  /** hotplugMsgs and completedTransfers are the lengths of the two lists.
      readBlocked records that a read found the pipe empty, which would put
      the reading thread to sleep with the lock held. */
  datatype EventData = EventData(
    deviceClose: nat,
    pollfdsModified: bool,
    hotplugMsgs: nat,
    completedTransfers: nat,
    bytes: nat,
    readBlocked: bool)

  /** usbi_io_init() adds the read end of the pipe to the poll set, which is the
      first event. */
  function FreshData(): EventData {
    FdNotification(EventData(0, false, 0, 0, 0, false))
  }

  predicate Pending(d: EventData) {
    d.deviceClose > 0 || d.pollfdsModified || d.hotplugMsgs > 0 || d.completedTransfers > 0
  }

  function SignalEvent(d: EventData): EventData {
    d.(bytes := d.bytes + 1)
  }

  function ClearEvent(d: EventData): EventData {
    if d.bytes == 0 then d.(readBlocked := true) else d.(bytes := d.bytes - 1)
  }

  function ClearUnlessPending(d: EventData): EventData {
    if Pending(d) then d else ClearEvent(d)
  }

  // ----- producers: they signal only when nothing was pending before -----

  function FdNotification(d: EventData): EventData {
    var e := d.(pollfdsModified := true);
    if Pending(d) then e else SignalEvent(e)
  }

  function HotplugNotification(d: EventData): EventData {
    var e := d.(hotplugMsgs := d.hotplugMsgs + 1);
    if Pending(d) then e else SignalEvent(e)
  }

  function SignalTransferCompletion(d: EventData): EventData {
    var e := d.(completedTransfers := d.completedTransfers + 1);
    if Pending(d) then e else SignalEvent(e)
  }

  function CloseAnnounce(d: EventData): EventData {
    var e := d.(deviceClose := d.deviceClose + 1);
    if Pending(d) then e else SignalEvent(e)
  }

  // ----- consumers: they clear when nothing is pending any more -----

  function CloseRetire(d: EventData): EventData
    requires d.deviceClose > 0
  {
    ClearUnlessPending(d.(deviceClose := d.deviceClose - 1))
  }

  /** handle_events before poll(): rebuild the poll set if it was modified. */
  function RefreshPollfds(d: EventData): EventData {
    if d.pollfdsModified then ClearUnlessPending(d.(pollfdsModified := false)) else d
  }

  /** handle_events after poll() flagged the pipe: take one hotplug message. */
  function TakeHotplug(d: EventData): EventData {
    if d.hotplugMsgs > 0 then d.(hotplugMsgs := d.hotplugMsgs - 1) else d
  }

  /** Is there another completed transfer for the drain loop to take? */
  predicate DrainContinues(d: EventData, failed: bool) {
    !failed && d.completedTransfers > 0
  }

  /** One turn of the drain loop: take a completed transfer, or leave the loop. */
  function DrainTurn(d: EventData, failed: bool): EventData {
    if DrainContinues(d, failed)
    then d.(completedTransfers := d.completedTransfers - 1)
    else ClearUnlessPending(d)
  }

  /** As long as something is pending poll() finds the pipe readable, and no read
      of the pipe has blocked. */
  predicate Readable(d: EventData) {
    (Pending(d) ==> d.bytes >= 1) && !d.readBlocked
  }

  /** The same blocks as they run in the library, updating the context in place.
      A fresh context is valid, and every block keeps it so: in particular each
      clear finds a byte. */
  class Context {
    var deviceClose: nat
    var pollfdsModified: bool
    var hotplugMsgs: nat
    var completedTransfers: nat
    var pipeBytes: nat
    var readBlocked: bool

    function Data(): EventData
      reads this
    {
      EventData(deviceClose, pollfdsModified, hotplugMsgs, completedTransfers, pipeBytes, readBlocked)
    }

    predicate Valid()
      reads this
    {
      Readable(Data())
    }

    /** A fresh context */
    constructor ()
      ensures Valid() && Data() == FreshData() == EventData(0, true, 0, 0, 1, false)
    {
      deviceClose, pollfdsModified, hotplugMsgs, completedTransfers := 0, false, 0, 0;
      pipeBytes, readBlocked := 0, false;
      new;
      UsbiFdNotification();
    }

    method PendingEvents() returns (r: bool)
      ensures r == Pending(Data())
    {
      r := deviceClose > 0 || pollfdsModified || hotplugMsgs > 0 || completedTransfers > 0;
    }

    method UsbiSignalEvent()
      modifies `pipeBytes
      ensures pipeBytes == old(pipeBytes) + 1
    {
      pipeBytes := pipeBytes + 1;
    }

    method UsbiClearEvent()
      modifies `pipeBytes, `readBlocked
      ensures Data() == ClearEvent(old(Data()))
    {
      if pipeBytes == 0 {
        readBlocked := true;
      } else {
        pipeBytes := pipeBytes - 1;
      }
    }

    method UsbiFdNotification()
      requires Valid()
      modifies `pollfdsModified, `pipeBytes
      ensures Valid() && pollfdsModified
      ensures pipeBytes == old(pipeBytes) + if old(Pending(Data())) then 0 else 1
      ensures Data() == FdNotification(old(Data()))
    {
      var pending := PendingEvents();
      pollfdsModified := true;
      if !pending {
        UsbiSignalEvent();
      }
    }

    method UsbiHotplugNotification()
      requires Valid()
      modifies `hotplugMsgs, `pipeBytes
      ensures Valid() && hotplugMsgs == old(hotplugMsgs) + 1
      ensures pipeBytes == old(pipeBytes) + if old(Pending(Data())) then 0 else 1
      ensures Data() == HotplugNotification(old(Data()))
    {
      var pending := PendingEvents();
      hotplugMsgs := hotplugMsgs + 1;
      if !pending {
        UsbiSignalEvent();
      }
    }

    method UsbiSignalTransferCompletion()
      requires Valid()
      modifies `completedTransfers, `pipeBytes
      ensures Valid() && completedTransfers == old(completedTransfers) + 1
      ensures pipeBytes == old(pipeBytes) + if old(Pending(Data())) then 0 else 1
      ensures Data() == SignalTransferCompletion(old(Data()))
    {
      var pending := PendingEvents();
      completedTransfers := completedTransfers + 1;
      if !pending {
        UsbiSignalEvent();
      }
    }

    /** libusb_close() before it takes the events lock. */
    method AnnounceClose()
      requires Valid()
      modifies `deviceClose, `pipeBytes
      ensures Valid() && deviceClose == old(deviceClose) + 1
      ensures pipeBytes == old(pipeBytes) + if old(Pending(Data())) then 0 else 1
      ensures Data() == CloseAnnounce(old(Data()))
    {
      var pending := PendingEvents();
      deviceClose := deviceClose + 1;
      if !pending {
        UsbiSignalEvent();
      }
    }

    /** libusb_close() after do_close(). */
    method RetireClose()
      requires Valid() && deviceClose > 0
      modifies `deviceClose, `pipeBytes, `readBlocked
      ensures Valid() && deviceClose == old(deviceClose) - 1
      ensures pipeBytes == old(pipeBytes) - if Pending(Data()) then 0 else 1
      ensures Data() == CloseRetire(old(Data()))
    {
      deviceClose := deviceClose - 1;
      var pending := PendingEvents();
      if !pending {
        UsbiClearEvent();
      }
    }

    method RefreshPollSet()
      requires Valid()
      modifies `pollfdsModified, `pipeBytes, `readBlocked
      ensures Valid() && !pollfdsModified
      ensures pipeBytes == old(pipeBytes) - if old(pollfdsModified) && !Pending(Data()) then 1 else 0
      ensures Data() == RefreshPollfds(old(Data()))
    {
      if pollfdsModified {
        pollfdsModified := false;
        var pending := PendingEvents();
        if !pending {
          UsbiClearEvent();
        }
      }
    }

    /** The hotplug message that the drain takes, if there is one */
    method TakeHotplugMessage() returns (taken: bool)
      modifies `hotplugMsgs
      ensures taken <==> old(hotplugMsgs) > 0
      ensures hotplugMsgs == old(hotplugMsgs) - if taken then 1 else 0
      ensures Data() == TakeHotplug(old(Data()))
    {
      taken := hotplugMsgs > 0;
      if taken {
        hotplugMsgs := hotplugMsgs - 1;
      }
    }

    /** The locked part of the drain loop.  poll() has found a byte in the pipe, and
        module EventLoop, which has the whole loop with the lock dropped around
        every completion, shows that it is still there. */
    method TurnDrainLoop(failed: bool) returns (taken: bool)
      requires Valid() && pipeBytes >= 1
      modifies `completedTransfers, `pipeBytes, `readBlocked
      ensures Valid() && (taken <==> !failed && old(completedTransfers) > 0)
      ensures completedTransfers == old(completedTransfers) - if taken then 1 else 0
      ensures pipeBytes == old(pipeBytes) - if !taken && !Pending(Data()) then 1 else 0
      ensures Data() == DrainTurn(old(Data()), failed)
    {
      taken := !failed && completedTransfers > 0;
      if taken {
        completedTransfers := completedTransfers - 1;
      } else {
        var pending := PendingEvents();
        if !pending {
          UsbiClearEvent();
        }
      }
    }
  }
}
