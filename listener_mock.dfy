/**
 The mock listener of package `listener`: a listener that binds nothing and
 accepts nothing, but goes through the same lifecycle as a real one
 (listen, serve until told to stop, close once).
 */
module Listener {
  import opened Wrappers
  import Callbacks

  /** The error message `Listen` fails with when the `ErrListen` knob is set. */
  const ListenFailure: string := "listen failure"

  /** The establishment callback of the mock: accepts every connection. */
  function MockEstablisher<Conn, Auth>(id: string, c: Conn, auth: Auth): (err: Option<string>)
    ensures err == None
  {
    None
  }

  class MockListener {
    /** Identity and bind address, fixed at construction. */
    const id: string
    const address: string
    /** The listener has been bound. */
    var Listening: bool
    /** The accept loop has started and not been stopped. */
    var Serving: bool
    /** The one-shot `done` channel has been closed. */
    var doneClosed: bool
    /** Test knob: make `Listen` fail. */
    var ErrListen: bool

    constructor (id: string, address: string)
      ensures this.id == id && this.address == address
      ensures !Listening && !Serving && !doneClosed && !ErrListen
    {
      this.id := id;
      this.address := address;
      Listening := false;
      Serving := false;
      doneClosed := false;
      ErrListen := false;
    }

    /** First half of `Serve`: the loop announces that it is serving. */
    method BeginServe()
      modifies this
      ensures Serving
      ensures Listening == old(Listening) && doneClosed == old(doneClosed)
      ensures ErrListen == old(ErrListen)
    {
      Serving := true;
    }

    /**
     Second half of `Serve`: the loop waits on `done` and returns nil; it can
     return only once `done` has been closed.
     */
    method ServeExit() returns (err: Option<string>)
      requires doneClosed
      ensures err == None
    {
      err := None;
    }

    /** Binds the listener, unless the `ErrListen` knob makes it fail. */
    method Listen() returns (err: Option<string>)
      modifies this
      ensures old(ErrListen) ==> err == Some(ListenFailure)
      ensures old(ErrListen) ==> Listening == old(Listening)
      ensures !old(ErrListen) ==> err == None && Listening
      ensures Serving == old(Serving) && doneClosed == old(doneClosed)
      ensures ErrListen == old(ErrListen)
    {
      if ErrListen {
        return Some(ListenFailure);
      }
      Listening := true;
      err := None;
    }

    /** The listener's identity. */
    function ID(): (r: string)
      ensures r == id
    {
      id
    }

    /**
     Stops the listener: clears `Serving`, calls the close callback with the
     listener's id, then closes `done`. Closing `done` a second time panics,
     so a listener can be closed only once.
     */
    method Close(closer: Callbacks.Closer)
      requires !doneClosed
      modifies this, closer
      ensures !Serving && doneClosed
      ensures closer.calls == old(closer.calls) + [id]
      ensures Listening == old(Listening) && ErrListen == old(ErrListen)
    {
      Serving := false;
      closer.Call(id);
      doneClosed := true;
    }

    /** Whether the accept loop is running; reads the flag and changes nothing. */
    function IsServing(): (r: bool)
      reads this
      ensures r <==> Serving
    {
      Serving
    }

    /** Whether the listener is bound; reads the flag and changes nothing. */
    function IsListening(): (r: bool)
      reads this
      ensures r <==> Listening
    {
      Listening
    }
  }
}
