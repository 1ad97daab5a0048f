/**
 * Where a thread dump is written: a fixed directory, the pod name, the
 * capture time (its RFC 3339 text, taken as given) and a fixed suffix.
 */
module DumpFile {
  import opened Wrappers
  import opened Strings

  const StoreDir: string := "/root/logs/"
  const DumpSuffix: string := "-jstack.txt"

  /** The file doThreadDump writes the jstack output to. */
  function DumpFilePath(podName: string, timestamp: string): (path: string)
  {
    StoreDir + podName + "-" + timestamp + DumpSuffix
  }

  /** The capture time embedded in path, when path is a dump file of podName. */
  function DumpTimestamp(podName: string, path: string): Option<string> {
    var head := StoreDir + podName + "-";
    if |path| >= |head| + |DumpSuffix| && path[..|head|] == head && path[|path| - |DumpSuffix|..] == DumpSuffix
    then Some(path[|head|..|path| - |DumpSuffix|])
    else None
  }

  /** Every dump path lies under the store directory, names its pod and ends in the suffix. */
  lemma DumpFilePathShape(podName: string, timestamp: string)
    ensures var path := DumpFilePath(podName, timestamp);
      StoreDir + podName + "-" <= path && path[|path| - |DumpSuffix|..] == DumpSuffix
  {
    SlicesOfJoin(StoreDir + podName + "-", timestamp, DumpSuffix);
  }

  /** The capture time can be read back from the path. */
  lemma DumpTimestampRoundTrip(podName: string, timestamp: string)
    ensures DumpTimestamp(podName, DumpFilePath(podName, timestamp)) == Some(timestamp)
  {
    SlicesOfJoin(StoreDir + podName + "-", timestamp, DumpSuffix);
  }

  /** A path is a dump file of podName exactly when it is built from some capture time. */
  lemma DumpTimestampSound(podName: string, path: string, timestamp: string)
    requires DumpTimestamp(podName, path) == Some(timestamp)
    ensures DumpFilePath(podName, timestamp) == path
  {
    Reassemble(path, StoreDir + podName + "-", DumpSuffix);
  }

  /** Dumps of the same pod taken at different times go to different files. */
  lemma DumpFilePathInjective(podName: string, t1: string, t2: string)
    requires DumpFilePath(podName, t1) == DumpFilePath(podName, t2)
    ensures t1 == t2
  {
    DumpTimestampRoundTrip(podName, t1);
    DumpTimestampRoundTrip(podName, t2);
  }
}
