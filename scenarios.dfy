/**
 Client code that drives the mock listener and the registry through the
 sequences exercised by the listener tests, relying only on the contracts
 of the operations it calls.
 */
module Scenarios {
  import opened Wrappers
  import Callbacks
  import Listener
  import Mqtt

  /** A new mock listener keeps its id and address and is neither listening nor serving. */
  method NewMockListenerScenario()
  {
    var mocked := new Listener.MockListener("t1", ":1882");
    assert mocked.ID() == "t1" && mocked.address == ":1882";
    assert !mocked.IsListening() && !mocked.IsServing();
  }

  /** `Listen` succeeds and sets the listening flag; with the knob set it fails. */
  method ListenScenario()
  {
    var mocked := new Listener.MockListener("t1", ":1882");
    var err := mocked.Listen();
    assert err == None && mocked.IsListening();

    var failing := new Listener.MockListener("t1", ":1882");
    failing.ErrListen := true;
    err := failing.Listen();
    assert err == Some(Listener.ListenFailure) && !failing.IsListening();
  }

  /** Serve, close (the callback sees the id), the serve loop returns, and listening still works after. */
  method ServeScenario()
  {
    var mocked := new Listener.MockListener("t1", ":1882");
    assert !mocked.IsServing();
    mocked.BeginServe();
    assert mocked.IsServing();
    var closer := new Callbacks.Closer();
    mocked.Close(closer);
    assert closer.calls == ["t1"] && !mocked.IsServing();
    var err := mocked.ServeExit();
    assert err == None;
    err := mocked.Listen();
    assert err == None && mocked.IsListening();
  }

  /** Adding two ids counts two; re-adding one overwrites it without changing the count. */
  method RegistryAddScenario()
  {
    var r := new Mqtt.Listeners();
    var n := r.Len();
    assert n == 0;
    var t1 := new Listener.MockListener("t1", ":1882");
    r.Add(t1);
    var t2 := new Listener.MockListener("t2", ":1883");
    r.Add(t2);
    n := r.Len();
    assert n == 2;
    var again := new Listener.MockListener("t1", ":1884");
    r.Add(again);
    n := r.Len();
    assert n == 2;
    var got, ok := r.Get("t1");
    assert ok && got == again;
  }

  /** Deleting removes one id and leaves the others; deleting it again does nothing. */
  method RegistryDeleteScenario()
  {
    var r := new Mqtt.Listeners();
    var t1 := new Listener.MockListener("t1", ":1882");
    r.Add(t1);
    var got, ok := r.Get("t1");
    assert ok && got == t1;
    r.Delete("t1");
    got, ok := r.Get("t1");
    assert !ok && got == null;
    r.Delete("t1");
    var n := r.Len();
    assert n == 0;
  }

  /** One listener: serve all, then close all with a callback that records ids. */
  method ServeAllCloseAllScenario()
  {
    var r := new Mqtt.Listeners();
    var t1 := new Listener.MockListener("t1", ":1882");
    r.Add(t1);
    r.ServeAll();
    var got, ok := r.Get("t1");
    assert ok && got.IsServing();
    var closer := new Callbacks.Closer();
    r.CloseAll(closer);
    assert closer.calls[0..] == closer.calls;
    assert closer.CallsWith("t1") == 1 && |closer.calls| == 1;
    assert !t1.IsServing();
    var err := t1.ServeExit();
    assert err == None;
  }
}
