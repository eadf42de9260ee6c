/** The part of testing.T that tests use: a stack of clean-ups, run last in first out, and a failure flag. */
module Testing {
  import opened Objects

  /** What a clean-up closure will do when it runs; clients are named by number. */
  datatype Cleanup =
    | DeleteObject(client: nat, key: Key)
    | DeleteNamespace(client: nat, existed: bool)

  class T {
    var cleanups: seq<Cleanup>
    var failed: bool

    constructor ()
      ensures cleanups == [] && !failed
    {
      cleanups, failed := [], false;
    }

    method Cleanup(c: Cleanup)
      modifies this
      ensures cleanups == old(cleanups) + [c] && failed == old(failed)
    {
      cleanups := cleanups + [c];
    }

    method Error()
      modifies this
      ensures failed && cleanups == old(cleanups)
    {
      failed := true;
    }
  }
}
