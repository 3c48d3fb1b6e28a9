/**
 * The QuickPulse performance-counter registry: the constant, ordered table of
 * (counter kind, counter path) pairs that the QuickPulse collector samples.
 */
module QuickPulsePerfCounterList {
  import opened Wrappers

  /** The counter kinds the table uses. */
  datatype QuickPulsePerfCounters = PerfIisQueueSize | PerfCpuUtilization | PerfMemoryInBytes

  /** One entry of the table: a kind and the Windows performance-counter path it is read from. */
  type CounterDefinition = (QuickPulsePerfCounters, string)

  const IisQueueSizePath: string := @"\ASP.NET Applications(__Total__)\Requests In Application Queue"
  const CommittedBytesPath: string := @"\Memory\Committed Bytes"
  const ProcessorTimePath: string := @"\Processor(_Total)\% Processor Time"

  /** The table exactly as written, including its pairing of kinds with paths. */
  function CountersToCollect(): seq<CounterDefinition>
  {
    [
      (PerfIisQueueSize, IisQueueSizePath),
      (PerfCpuUtilization, CommittedBytesPath),
      (PerfMemoryInBytes, ProcessorTimePath)
    ]
  }

  /**
   * The property is expression-bodied: every access allocates a new array
   * holding the same three entries.
   */
  method CountersToCollectArray() returns (a: array<CounterDefinition>)
    ensures fresh(a)
    ensures a[..] == CountersToCollect()
  {
    a := new CounterDefinition[3];
    a[0] := (PerfIisQueueSize, IisQueueSizePath);
    a[1] := (PerfCpuUtilization, CommittedBytesPath);
    a[2] := (PerfMemoryInBytes, ProcessorTimePath);
  }

  /** No kind occurs in two entries of the table. */
  predicate KindsUnique(table: seq<CounterDefinition>)
  {
    forall i, j :: 0 <= i < j < |table| ==> table[i].0 != table[j].0
  }

  /** The path of the first entry for the kind, as a reader of the table finds it. */
  function PathOf(table: seq<CounterDefinition>, kind: QuickPulsePerfCounters): (r: Option<string>)
    ensures r.None? <==> forall i :: 0 <= i < |table| ==> table[i].0 != kind
    ensures r.Some? ==> exists i :: 0 <= i < |table| && table[i] == (kind, r.value)
  {
    if table == [] then None
    else if table[0].0 == kind then Some(table[0].1)
    else
      var rest := PathOf(table[1..], kind);
      assert forall i :: 1 <= i < |table| ==> table[i] == table[1..][i - 1];
      rest
  }

  /** In a table without repeated kinds, the lookup returns the path of the one entry for the kind. */
  lemma {:induction false} PathOfUnique(table: seq<CounterDefinition>, i: nat)
    requires KindsUnique(table)
    requires i < |table|
    ensures PathOf(table, table[i].0) == Some(table[i].1)
  {
    if i > 0 {
      assert table[0].0 != table[i].0;
      assert KindsUnique(table[1..]) by {
        forall a, b | 0 <= a < b < |table[1..]| ensures table[1..][a].0 != table[1..][b].0 {
          assert table[1..][a] == table[a + 1] && table[1..][b] == table[b + 1];
        }
      }
      PathOfUnique(table[1..], i - 1);
    }
  }

  lemma CountersToCollectLength()
    ensures |CountersToCollect()| == 3
  {
  }

  /** The number of entries for the kind. */
  function Occurrences(table: seq<CounterDefinition>, kind: QuickPulsePerfCounters): (n: nat)
    ensures n <= |table|
    ensures n == 0 <==> PathOf(table, kind).None?
  {
    if table == [] then 0
    else (if table[0].0 == kind then 1 else 0) + Occurrences(table[1..], kind)
  }

  /** Each kind has exactly one entry, and so no kind is repeated. */
  lemma CountersToCollectKindsUnique()
    ensures KindsUnique(CountersToCollect())
    ensures forall kind :: Occurrences(CountersToCollect(), kind) == 1
  {
  }

  /** The entries come in the order queue size, CPU utilization, memory. */
  lemma CountersToCollectOrder()
    ensures CountersToCollect()[0].0 == PerfIisQueueSize
    ensures CountersToCollect()[1].0 == PerfCpuUtilization
    ensures CountersToCollect()[2].0 == PerfMemoryInBytes
  {
  }

  /**
   * Looking a kind up yields its path, which is never empty. As written, the
   * CPU-utilization kind is read from the memory counter and the memory kind
   * from the processor-time counter.
   */
  lemma CountersToCollectPaths()
    ensures PathOf(CountersToCollect(), PerfIisQueueSize) == Some(IisQueueSizePath)
    ensures PathOf(CountersToCollect(), PerfCpuUtilization) == Some(CommittedBytesPath)
    ensures PathOf(CountersToCollect(), PerfMemoryInBytes) == Some(ProcessorTimePath)
    ensures forall kind :: PathOf(CountersToCollect(), kind).Some? && PathOf(CountersToCollect(), kind).value != ""
  {
    var table := CountersToCollect();
    CountersToCollectKindsUnique();
    PathOfUnique(table, 0);
    PathOfUnique(table, 1);
    PathOfUnique(table, 2);
  }

  /** Whether a counter path names a counter of the Windows Memory category. */
  predicate IsMemoryCounterPath(path: string)
  {
    |path| >= 8 && path[..8] == @"\Memory\"
  }

  /** Whether a counter path names a counter of the Windows Processor category. */
  predicate IsProcessorCounterPath(path: string)
  {
    |path| >= 11 && path[..11] == @"\Processor("
  }

  /** The category of each of the two counter paths the CPU and memory kinds use. */
  lemma CategoriesOfPaths()
    ensures IsMemoryCounterPath(CommittedBytesPath) && !IsProcessorCounterPath(CommittedBytesPath)
    ensures IsProcessorCounterPath(ProcessorTimePath) && !IsMemoryCounterPath(ProcessorTimePath)
  {
    assert CommittedBytesPath[1] == 'M';
    assert ProcessorTimePath[1] == 'P';
  }

  /** The pairing as written: each of the CPU and memory kinds is read from the other's category. */
  lemma CpuAndMemoryPathsCrossed()
    ensures IsMemoryCounterPath(PathOf(CountersToCollect(), PerfCpuUtilization).value)
    ensures !IsProcessorCounterPath(PathOf(CountersToCollect(), PerfCpuUtilization).value)
    ensures IsProcessorCounterPath(PathOf(CountersToCollect(), PerfMemoryInBytes).value)
    ensures !IsMemoryCounterPath(PathOf(CountersToCollect(), PerfMemoryInBytes).value)
  {
    assert PathOf(CountersToCollect(), PerfCpuUtilization).value == CommittedBytesPath by {
      CountersToCollectPaths();
    }
    assert PathOf(CountersToCollect(), PerfMemoryInBytes).value == ProcessorTimePath by {
      CountersToCollectPaths();
    }
    CategoriesOfPaths();
  }
}
