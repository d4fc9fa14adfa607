/** pkg/util/uuid/id_worker.go: 64-bit identifiers, the worker in bits 53 to 62 and below it a counter that
    started as a timestamp. uint64 values are integers below 2^64; OrIsSum justifies the bit operations. */
module IdWorker {
  const MAX_WORKER_ID: int := 1023
  const UINT64: int := 0x1_0000_0000_0000_0000
  const LOW: int := 0x20_0000_0000_0000

  datatype Result = Ok | WorkerIdOutOfRange

  /** The low 53 bits are the mask's, and joining them to a shifted worker id adds them. */
  lemma OrIsSum(workerID: bv64, next: bv64)
    requires workerID & 0x1F_FFFF_FFFF_FFFF == 0
    ensures workerID | (next & 0x1F_FFFF_FFFF_FFFF) == workerID + next % 0x20_0000_0000_0000
  {
    assert next & 0x1F_FFFF_FFFF_FFFF == next % 0x20_0000_0000_0000;
  }

  /** The id of the n-th call after the counter was c. */
  function NthID(worker: int, c: int, n: nat): int
  {
    worker * LOW + (c + n) % UINT64 % LOW
  }

  /** The variables of the Go package; `atomic.AddUint64` is one step. */
  class Worker {
    var timestampAndSequence: int
    var workerID: int

    /** The worker set last, and the calls counted since the start. */
    ghost var worker: int
    ghost const start: int
    ghost var calls: nat

    ghost predicate Valid()
      reads this
    {
      0 <= worker <= MAX_WORKER_ID && workerID == worker * LOW && timestampAndSequence == (start + calls) % UINT64
    }

    /** `milliseconds` is the clock's, less the epoch; `generated` is what the hardware address or the random
        source gives: ten bits. */
    constructor (milliseconds: int, generated: int)
      requires 0 <= generated <= MAX_WORKER_ID
      ensures Valid() && worker == generated && start == milliseconds * 4096 && calls == 0
    {
      timestampAndSequence := milliseconds * 4096 % UINT64;
      workerID := generated * LOW;
      worker, start, calls := generated, milliseconds * 4096, 0;
    }

    method Init(serverNode: int) returns (r: Result)
      requires Valid()
      modifies this`workerID, this`worker
      ensures Valid()
      ensures r.Ok? <==> 0 <= serverNode <= 1023
      ensures worker == if r.Ok? then serverNode else old(worker)
    {
      if serverNode > MAX_WORKER_ID || serverNode < 0 {
        return WorkerIdOutOfRange;
      }
      workerID := serverNode * LOW;
      worker := serverNode;
      return Ok;
    }

    method NextID() returns (id: int)
      requires Valid()
      modifies this`timestampAndSequence, this`calls
      ensures Valid() && calls == old(calls) + 1
      ensures id == NthID(worker, start, calls)
      ensures id == worker * 0x20_0000_0000_0000 + (start + calls) % 0x20_0000_0000_0000
    {
      timestampAndSequence := (timestampAndSequence + 1) % UINT64;
      calls := calls + 1;
      LowOfCounter(start, calls);
      id := workerID + timestampAndSequence % LOW;
    }
  }

  lemma LowOfCounter(c: int, n: nat)
    ensures (c + n) % UINT64 % LOW == (c + n) % LOW
  {
    var x := c + n;
    assert x == x / UINT64 * UINT64 + x % UINT64;
    assert UINT64 == 2048 * LOW;
    assert x % UINT64 == x - 2048 * (x / UINT64) * LOW;
  }

  /** The worker and the counter can be read back from an id, which is a non-negative int64. */
  lemma IdFields(worker: int, c: int, n: nat)
    requires 0 <= worker <= MAX_WORKER_ID
    ensures 0 <= NthID(worker, c, n) < 0x8000_0000_0000_0000
    ensures NthID(worker, c, n) / 0x20_0000_0000_0000 == worker
    ensures NthID(worker, c, n) % 0x20_0000_0000_0000 == (c + n) % 0x20_0000_0000_0000
  {
    LowOfCounter(c, n);
  }

  /** So two workers never share an id. */
  lemma WorkersDiffer(worker: int, c: int, n: nat, worker': int, c': int, n': nat)
    requires 0 <= worker <= MAX_WORKER_ID && 0 <= worker' <= MAX_WORKER_ID && worker != worker'
    ensures NthID(worker, c, n) != NthID(worker', c', n')
  {
    IdFields(worker, c, n);
    IdFields(worker', c', n');
  }

  /** One worker repeats an id only after a multiple of 2^53 calls, and then always: any 2^53 consecutive
      calls give distinct ids. */
  lemma Repeats(worker: int, c: int, i: nat, j: nat)
    requires 0 <= worker <= MAX_WORKER_ID && i <= j
    ensures NthID(worker, c, i) == NthID(worker, c, j) <==> (j - i) % 0x20_0000_0000_0000 == 0
    ensures i < j < i + 0x20_0000_0000_0000 ==> NthID(worker, c, i) != NthID(worker, c, j)
  {
    LowOfCounter(c, i);
    LowOfCounter(c, j);
    SameLow(c + i, j - i);
  }

  /** Two numbers k apart have the same low bits when k has none. */
  lemma SameLow(x: int, k: nat)
    ensures x % LOW == (x + k) % LOW <==> k % LOW == 0
  {
    LowOfSum(x, k);
  }

  lemma LowOfSum(x: int, k: nat)
    ensures (x + k) % LOW == if x % LOW + k % LOW < LOW then x % LOW + k % LOW else x % LOW + k % LOW - LOW
  {
    var q, r := x / LOW + k / LOW, x % LOW + k % LOW;
    assert x + k == q * LOW + r;
    if r < LOW {
      Quotient(x + k, q, r);
    } else {
      Quotient(x + k, q + 1, r - LOW);
    }
  }

  lemma Quotient(y: int, q: int, r: int)
    requires y == q * LOW + r && 0 <= r < LOW
    ensures y % LOW == r
  {
  }

  /** Within such a stretch a later id is greater exactly when the counter's low bits have not wrapped. */
  lemma Increasing(worker: int, c: int, i: nat, j: nat)
    requires 0 <= worker <= MAX_WORKER_ID && i < j < i + LOW
    ensures NthID(worker, c, i) < NthID(worker, c, j) <==> (c + i) % LOW + (j - i) < LOW
  {
    LowOfCounter(c, i);
    LowOfCounter(c, j);
    LowOfSum(c + i, j - i);
    Quotient(j - i, 0, j - i);
  }
}
