/** The channel on which the command line waits: file-system notifications, the end of the child
    and faults of the watcher, next to the directory that they are about. */
module InstanceWatch {
  import opened Wrappers

  datatype Wake = Filesystem | ChildExited(status: int) | WatchFailed

  /** `due`: the directory has changed and the watcher has not sent its wake yet (one wake may
      stand for several changes). `seen`: the directory at the last look since the watcher was
      registered. */
  datatype Feed<D> = Feed(directory: D, watched: bool, due: bool, channel: seq<Wake>, seen: Option<D>)

  function Start<D>(directory: D): Feed<D> {
    Feed(directory, false, false, [], None)
  }

  function Change<D>(f: Feed<D>, directory: D): Feed<D> {
    f.(directory := directory, due := f.due || f.watched)
  }

  function Notify<D>(f: Feed<D>): Feed<D> {
    f.(due := false, channel := f.channel + [Filesystem])
  }

  function Send<D>(f: Feed<D>, wake: Wake): Feed<D> {
    f.(channel := f.channel + [wake])
  }

  function Register<D>(f: Feed<D>): Feed<D> {
    f.(watched := true, seen := None)
  }

  function Look<D>(f: Feed<D>): Feed<D> {
    f.(seen := Some(f.directory))
  }

  function Pop<D>(f: Feed<D>): Feed<D>
    requires f.channel != []
  {
    f.(channel := f.channel[1..])
  }

  /** Nothing has changed since the last look without a wake for it. */
  ghost predicate Noticed<D>(f: Feed<D>) {
    f.watched && f.seen.Some? && (f.seen == Some(f.directory) || f.due || Filesystem in f.channel)
  }

  /** Nothing is on its way. */
  predicate Silent<D>(f: Feed<D>) {
    f.channel == [] && !f.due
  }

  lemma SilentSeesAll<D>(f: Feed<D>)
    requires Noticed(f) && Silent(f)
    ensures f.seen == Some(f.directory)
  {
  }

  /** The environment cannot make a change go unnoticed. */
  lemma EnvironmentIsNoticed<D>(f: Feed<D>, directory: D, wake: Wake)
    requires Noticed(f)
    ensures Noticed(Change(f, directory)) && Noticed(Send(f, wake)) && (f.due ==> Noticed(Notify(f)))
  {
    assert (f.channel + [Filesystem])[|f.channel|] == Filesystem;
    assert forall w | w in f.channel :: w in f.channel + [wake];
  }
}
