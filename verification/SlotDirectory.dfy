/** A directory of immutable, numbered files into which writers link new files
    exclusively (receipts, checkpoints). */
module SlotDirectory {
  import opened Prelude
  import opened Ordering

  /** The file-name pattern has exactly eight digits. */
  const MAX_SLOT: nat := 99_999_999

  /** Names the file-name pattern does not match: a writer's temporary file, a
      number printed with more than eight digits, anything else. */
  datatype OtherName = Temporary(owner: nat) | Overlong(number: nat) | Stray(text: string)

  datatype Directory<F> = Directory(slots: map<nat, F>, others: set<OtherName>)

  /** The files at the given slots, in the given order. */
  function Select<F>(slots: map<nat, F>, order: seq<nat>): (files: seq<F>)
    requires forall i :: 0 <= i < |order| ==> order[i] in slots
    ensures |files| == |order|
    ensures forall i :: 0 <= i < |order| ==> files[i] == slots[order[i]]
  {
    if order == [] then []
    else Select(slots, order[..|order| - 1]) + [slots[order[|order| - 1]]]
  }

  /** The files whose names match the pattern, sorted by name. */
  function Files<F>(d: Directory<F>): (files: seq<F>)
  {
    SortedNatsFacts(d.slots.Keys);
    var order := SortedNats(d.slots.Keys);
    assert forall i :: 0 <= i < |order| ==> order[i] in order;
    Select(d.slots, order)
  }

  /** The directory listing fails on any name the pattern does not match. */
  function Listing<F>(d: Directory<F>): (files: Option<seq<F>>) {
    if d.others == {} then Some(Files(d)) else None
  }

  /** os.link to the final name of file `number`: fails if the name exists. */
  function LinkExclusive<F>(d: Directory<F>, number: nat, file: F): (linked: Option<Directory<F>>) {
    if number <= MAX_SLOT then
      if number in d.slots then None else Some(d.(slots := d.slots[number := file]))
    else
      if Overlong(number) in d.others then None else Some(d.(others := d.others + {Overlong(number)}))
  }

  /** The slots 1..n are taken and no others. */
  ghost predicate Contiguous<F>(d: Directory<F>, n: nat) {
    n <= MAX_SLOT && forall k :: k in d.slots <==> 1 <= k <= n
  }

  /** In a contiguous directory, sorted position k - 1 is the file named k. */
  lemma ContiguousFiles<F>(d: Directory<F>, n: nat)
    requires Contiguous(d, n)
    ensures |Files(d)| == n
    ensures forall i :: 0 <= i < n ==> Files(d)[i] == d.slots[i + 1]
  {
    SortedInterval(d.slots.Keys, n);
  }

  /** A successful link of some k <= n + 1 into slots 1..n appended file n + 1,
      unless the number has outgrown the name pattern. */
  lemma LinkAppends<F>(d: Directory<F>, n: nat, k: nat, file: F)
    requires Contiguous(d, n) && 1 <= k <= n + 1
    ensures k <= n ==> LinkExclusive(d, k, file) == None
    ensures LinkExclusive(d, k, file).Some? ==>
              var linked := LinkExclusive(d, k, file).value;
              if k <= MAX_SLOT
              then k == n + 1 && Contiguous(linked, n + 1) && Files(linked) == Files(d) + [file]
              else linked.slots == d.slots
  {
    ContiguousFiles(d, n);
    var attempt := LinkExclusive(d, k, file);
    if attempt.Some? && k <= MAX_SLOT {
      ContiguousFiles(attempt.value, n + 1);
      assert Files(attempt.value) == Files(d) + [file];
    }
  }

  lemma SortedNatsAppend(s: set<nat>, m: nat)
    requires forall k :: k in s ==> k < m
    ensures SortedNats(s + {m}) == SortedNats(s) + [m]
  {
    SortedNatsFacts(s);
    SortedNatsFacts(s + {m});
    NatLessIsStrictTotal();
    var order, longer := SortedNats(s), SortedNats(s + {m});
    forall i | 0 <= i < |order| ensures NatLess(order[i], m) {
      assert order[i] in order;
    }
    AscendingIsUnique(NatLess, longer, order + [m]);
  }

  /** Where a name sorts. */
  lemma PositionOf(s: set<nat>, m: nat) returns (p: nat)
    requires m in s
    ensures p < |SortedNats(s)| && SortedNats(s)[p] == m
  {
    SortedNatsFacts(s);
    assert m in SortedNats(s);
    p :| 0 <= p < |SortedNats(s)| && SortedNats(s)[p] == m;
  }

  lemma PositionsFollow(s: set<nat>, p: nat, q: nat)
    requires p < |SortedNats(s)| && q < |SortedNats(s)| && SortedNats(s)[p] < SortedNats(s)[q]
    ensures p < q
  {
    SortedNatsFacts(s);
  }

  lemma FilesAt<F>(d: Directory<F>, p: nat)
    requires p < |SortedNats(d.slots.Keys)|
    ensures |Files(d)| == |SortedNats(d.slots.Keys)| == |d.slots.Keys| && SortedNats(d.slots.Keys)[p] in d.slots
    ensures Files(d)[p] == d.slots[SortedNats(d.slots.Keys)[p]]
  {
    SortedNatsFacts(d.slots.Keys);
    assert SortedNats(d.slots.Keys)[p] in SortedNats(d.slots.Keys);
  }

  /** A file linked above every taken slot sorts last. */
  lemma LinkAtEnd<F>(d: Directory<F>, m: nat, file: F)
    requires forall k :: k in d.slots ==> k < m
    ensures Files(d.(slots := d.slots[m := file])) == Files(d) + [file]
  {
    var linked := d.(slots := d.slots[m := file]);
    var order := SortedNats(d.slots.Keys);
    SortedNatsAppend(d.slots.Keys, m);
    assert linked.slots.Keys == d.slots.Keys + {m};
    FilesAt(linked, |order|);
    forall i | 0 <= i < |order| ensures Files(linked)[i] == Files(d)[i] {
      FilesAt(linked, i);
      FilesAt(d, i);
    }
  }

  /** A linked file is one of the files, somewhere in their order. */
  lemma LinkedIsListed<F>(d: Directory<F>, m: nat, file: F) returns (p: nat)
    requires m !in d.slots
    ensures var linked := d.(slots := d.slots[m := file]);
            && |Files(linked)| == |Files(d)| + 1
            && p < |Files(linked)| && Files(linked)[p] == file
            && SortedNats(linked.slots.Keys)[p] == m
  {
    var linked := d.(slots := d.slots[m := file]);
    assert linked.slots.Keys == d.slots.Keys + {m};
    p := PositionOf(linked.slots.Keys, m);
    FilesAt(linked, p);
    SortedNatsFacts(d.slots.Keys);
  }

  /** A file linked below a taken slot does not. */
  lemma LinkBelowTaken<F>(d: Directory<F>, m: nat, file: F, k: nat) returns (p: nat)
    requires m !in d.slots && k in d.slots && m < k
    ensures p < |Files(d)|
    ensures |Files(d.(slots := d.slots[m := file]))| == |Files(d)| + 1
    ensures Files(d.(slots := d.slots[m := file]))[p] == file
  {
    var linked := d.(slots := d.slots[m := file]);
    p := LinkedIsListed(d, m, file);
    var q := PositionOf(linked.slots.Keys, k);
    PositionsFollow(linked.slots.Keys, p, q);
    FilesAt(linked, q);
  }

  /** What a directory scan may return while other writers link files: some of
      the files that exist when the scan ends. */
  ghost predicate ScanOf<F>(scan: Directory<F>, d: Directory<F>) {
    forall k :: k in scan.slots ==> k in d.slots && scan.slots[k] == d.slots[k]
  }

  /** A scan whose i-th file carries number i + 1, out of a directory whose
      file k carries number k, has no gap. */
  lemma NumberedScanIsContiguous<F>(scan: Directory<F>, d: Directory<F>, n: nat, number: F -> int)
    requires Contiguous(d, n) && ScanOf(scan, d)
    requires forall k :: k in d.slots ==> number(d.slots[k]) == k
    requires forall i :: 0 <= i < |Files(scan)| ==> number(Files(scan)[i]) == i + 1
    ensures |Files(scan)| <= n && Contiguous(scan, |Files(scan)|)
  {
    SortedNatsFacts(scan.slots.Keys);
    var order := SortedNats(scan.slots.Keys);
    var m := |order|;
    forall i | 0 <= i < m ensures order[i] == i + 1 && order[i] in scan.slots {
      assert order[i] in order;
      assert Files(scan)[i] == scan.slots[order[i]] == d.slots[order[i]];
    }
    forall k: nat | k in scan.slots ensures 1 <= k <= m {
      var i :| 0 <= i < m && order[i] == k;
    }
    forall k: nat | 1 <= k <= m ensures k in scan.slots {
      assert order[k - 1] == k;
    }
    if m > 0 {
      assert order[m - 1] in d.slots;
    }
  }

  /** Such a scan returned exactly the first files of the directory. */
  lemma NumberedScanIsPrefix<F>(scan: Directory<F>, d: Directory<F>, n: nat, number: F -> int)
    requires Contiguous(d, n) && ScanOf(scan, d)
    requires forall k :: k in d.slots ==> number(d.slots[k]) == k
    requires forall i :: 0 <= i < |Files(scan)| ==> number(Files(scan)[i]) == i + 1
    ensures |Files(scan)| <= n == |Files(d)|
    ensures Files(scan) == Files(d)[..|Files(scan)|]
  {
    NumberedScanIsContiguous(scan, d, n, number);
    ContiguousFiles(scan, |Files(scan)|);
    ContiguousFiles(d, n);
  }
}
