/**
 * Finding the JVM among the processes of the shared process namespace:
 * the first process whose executable name contains "java".
 */
module ProcessLookup {

  const ProcessName: string := "java"

  /** Returned when no process matches. */
  const NotFound: int := -1

  /** One entry of the process table; operating-system pids are non-negative. */
  datatype Process = Process(pid: nat, executable: string)

  /** strings.Contains: sub occurs somewhere in s (the empty string occurs everywhere). */
  predicate Contains(s: string, sub: string) {
    exists i | 0 <= i <= |s| - |sub| :: OccursAt(s, sub, i)
  }

  predicate OccursAt(s: string, sub: string, i: int) {
    0 <= i <= |s| - |sub| && s[i..i + |sub|] == sub
  }

  predicate IsJava(p: Process) {
    Contains(p.executable, ProcessName)
  }

  /** findJavaPid: scans the table in order and stops at the first match. */
  method FindJavaPid(processes: seq<Process>) returns (pid: int)
    ensures pid == NotFound <==> forall k | 0 <= k < |processes| :: !IsJava(processes[k])
    ensures pid != NotFound ==>
      exists k | 0 <= k < |processes| ::
        IsJava(processes[k]) && processes[k].pid == pid &&
        forall j | 0 <= j < k :: !IsJava(processes[j])
  {
    for i := 0 to |processes|
      invariant forall j | 0 <= j < i :: !IsJava(processes[j])
    {
      if IsJava(processes[i]) {
        return processes[i].pid;
      }
    }
    return NotFound;
  }

  /** The table of a bash shell and a JVM yields the JVM's pid. */
  method LookupExample() returns (pid: int)
    ensures pid == 42
  {
    var bash := Process(1, "bash");
    var java := Process(42, "java");
    assert !IsJava(bash) by {
      assert !OccursAt(bash.executable, ProcessName, 0) by {
        assert bash.executable[0..4][0] != ProcessName[0];
      }
    }
    assert IsJava(java) by {
      assert OccursAt(java.executable, ProcessName, 0);
    }
    var table := [bash, java];
    pid := FindJavaPid(table);
    assert pid != NotFound by {
      assert IsJava(table[1]);
    }
    ghost var k :| 0 <= k < |table| && IsJava(table[k]) && table[k].pid == pid;
    assert k != 0;
  }

  /** A table without a JVM, and the empty table, yield NotFound. */
  method LookupMissingExample() returns (pid: int, pidOfEmpty: int)
    ensures pid == NotFound && pidOfEmpty == NotFound
  {
    var bash := Process(1, "bash");
    assert !IsJava(bash) by {
      assert !OccursAt(bash.executable, ProcessName, 0) by {
        assert bash.executable[0..4][0] != ProcessName[0];
      }
    }
    pid := FindJavaPid([bash]);
    pidOfEmpty := FindJavaPid([]);
  }
}
