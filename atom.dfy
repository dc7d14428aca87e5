/**
 * The Bohr-model drawing of a light atom: the table of elements with their
 * electrons per shell, the loop that lays out one ring per shell and one
 * marker per electron, the total shown beside it, and the per-shell labels.
 * Markers and rings are records of what the page draws; angles and
 * animation timing are not part of this model.
 */
module AtomVisualization {

  datatype Element = Element(
    symbol: string,
    name: string,
    atomicNumber: nat,
    electrons: seq<nat>,
    color: string)

  const Hydrogen := Element("H", "Hydrogen", 1, [1], "hsl(0 100% 70%)")
  const Helium := Element("He", "Helium", 2, [2], "hsl(60 100% 70%)")
  const Lithium := Element("Li", "Lithium", 3, [2, 1], "hsl(120 100% 70%)")
  const Carbon := Element("C", "Carbon", 6, [2, 4], "hsl(200 100% 70%)")
  const Nitrogen := Element("N", "Nitrogen", 7, [2, 5], "hsl(240 100% 70%)")
  const Oxygen := Element("O", "Oxygen", 8, [2, 6], "hsl(300 100% 70%)")

  const Elements: seq<Element> := [Hydrogen, Helium, Lithium, Carbon, Nitrogen, Oxygen]

  // ---------------------------------------------------------------------
  // Totals

  /** `electrons.reduce((a, b) => a + b, 0)`: the sum, added from the left. */
  function ElectronTotal(electrons: seq<nat>): nat
  {
    if electrons == [] then 0
    else ElectronTotal(electrons[..|electrons| - 1]) + electrons[|electrons| - 1]
  }

  /** The total of a split configuration is the sum of the totals of its parts. */
  lemma {:induction false} ElectronTotalConcat(a: seq<nat>, b: seq<nat>)
    ensures ElectronTotal(a + b) == ElectronTotal(a) + ElectronTotal(b)
    decreases |b|
  {
    if b == [] {
      assert a + b == a;
    } else {
      var b' := b[..|b| - 1];
      assert (a + b)[..|a + b| - 1] == a + b';
      ElectronTotalConcat(a, b');
    }
  }

  /** No shell holds more electrons than the whole atom. */
  lemma {:induction false} ShellAtMostTotal(electrons: seq<nat>, k: nat)
    requires k < |electrons|
    ensures electrons[k] <= ElectronTotal(electrons)
    decreases |electrons|
  {
    var last := |electrons| - 1;
    if k < last {
      ShellAtMostTotal(electrons[..last], k);
    }
  }

  // ---------------------------------------------------------------------
  // Layout

  /** The ring of shell `shellIndex` is drawn at radius `100 + 60 * shellIndex` pixels. */
  function ShellRadius(shellIndex: nat): nat
  {
    100 + shellIndex * 60
  }

  /** The innermost ring is at 100, and each further ring is strictly outside the previous one. */
  lemma RadiiIncrease(i: nat, j: nat)
    ensures ShellRadius(0) == 100
    ensures i < j ==> ShellRadius(i) + 60 <= ShellRadius(j)
  {
  }

  /** One electron marker, keyed `electron-<shell>-<position>`. */
  datatype ElectronMarker = ElectronMarker(shellIndex: nat, position: nat)

  /** One ring, keyed `shell-<shell>`, drawn with diameter `2 * radius`, holding its markers. */
  datatype ShellView = ShellView(shellIndex: nat, radius: nat, markers: seq<ElectronMarker>)

  /** Shell `k` of a configuration with `n` electrons in it, as the loop draws it. */
  predicate DrawnShell(shell: ShellView, k: nat, n: nat) {
    && shell.shellIndex == k
    && shell.radius == ShellRadius(k)
    && |shell.markers| == n
    && forall j :: 0 <= j < n ==> shell.markers[j] == ElectronMarker(k, j)
  }

  /** The number of markers on all rings together. */
  function MarkerCount(shells: seq<ShellView>): nat
  {
    if shells == [] then 0
    else MarkerCount(shells[..|shells| - 1]) + |shells[|shells| - 1].markers|
  }

  /**
   * `renderElectronShells`: for each shell, the ring at its radius with one
   * marker per electron, counting every marker in `electronCount`. The count
   * ends equal to both the markers drawn and the total the page shows.
   */
  method RenderElectronShells(electrons: seq<nat>) returns (shells: seq<ShellView>, electronCount: nat)
    ensures |shells| == |electrons|
    ensures forall k :: 0 <= k < |shells| ==> DrawnShell(shells[k], k, electrons[k])
    ensures electronCount == MarkerCount(shells)
    ensures electronCount == ElectronTotal(electrons)
  {
    shells := [];
    electronCount := 0;
    var shellIndex := 0;
    while shellIndex < |electrons|
      invariant 0 <= shellIndex <= |electrons|
      invariant |shells| == shellIndex
      invariant forall k :: 0 <= k < shellIndex ==> DrawnShell(shells[k], k, electrons[k])
      invariant electronCount == MarkerCount(shells)
      invariant electronCount == ElectronTotal(electrons[..shellIndex])
    {
      var electronsInShell := electrons[shellIndex];
      var radius := ShellRadius(shellIndex);
      var markers: seq<ElectronMarker> := [];
      var i := 0;
      while i < electronsInShell
        invariant 0 <= i <= electronsInShell
        invariant |markers| == i
        invariant forall j :: 0 <= j < i ==> markers[j] == ElectronMarker(shellIndex, j)
        invariant electronCount == MarkerCount(shells) + i
      {
        markers := markers + [ElectronMarker(shellIndex, i)];
        electronCount := electronCount + 1;
        i := i + 1;
      }
      var shell := ShellView(shellIndex, radius, markers);
      assert (shells + [shell])[..shellIndex] == shells;
      assert electrons[..shellIndex + 1][..shellIndex] == electrons[..shellIndex];
      shells := shells + [shell];
      shellIndex := shellIndex + 1;
    }
    assert electrons[..|electrons|] == electrons;
  }

  /** Markers are never shared: two markers agree only when they are the same shell and position. */
  lemma MarkersDistinct(shells: seq<ShellView>, electrons: seq<nat>, k: nat, j: nat, k': nat, j': nat)
    requires |shells| == |electrons|
    requires forall s :: 0 <= s < |shells| ==> DrawnShell(shells[s], s, electrons[s])
    requires k < |shells| && j < |shells[k].markers| && k' < |shells| && j' < |shells[k'].markers|
    requires shells[k].markers[j] == shells[k'].markers[j']
    ensures k == k' && j == j'
  {
    assert DrawnShell(shells[k], k, electrons[k]);
    assert DrawnShell(shells[k'], k', electrons[k']);
  }

  // ---------------------------------------------------------------------
  // Labels

  /** The capacity in the label of shell `shellIndex`: 2, then 8, then 18 for every later shell. */
  function ShellCapacity(shellIndex: nat): nat
  {
    if shellIndex == 0 then 2 else if shellIndex == 1 then 8 else 18
  }

  /** Capacities never shrink outwards, and every shell from the third on is labelled 18. */
  lemma ShellCapacityGrows(i: nat, j: nat)
    ensures ShellCapacity(0) == 2 && ShellCapacity(1) == 8
    ensures i <= j ==> ShellCapacity(i) <= ShellCapacity(j)
    ensures i >= 2 ==> ShellCapacity(i) == 18
  {
  }

  /** `electron` for exactly one, `electrons` otherwise (including none). */
  function ElectronWord(n: nat): (w: string)
    ensures |w| >= 8 && w[..8] == "electron"
    ensures |w| == 8 <==> n == 1
    ensures |w| <= 9 && (|w| == 9 ==> w[8] == 's')
  {
    "electron" + (if n != 1 then "s" else "")
  }

  /**
   * An element's shells add up to its atomic number, every shell is occupied,
   * and no shell exceeds its labelled capacity.
   */
  predicate Consistent(e: Element) {
    && ElectronTotal(e.electrons) == e.atomicNumber
    && forall k :: 0 <= k < |e.electrons| ==> 0 < e.electrons[k] <= ShellCapacity(k)
  }

  /** Every element of the table is consistent. */
  lemma ElementsConsistent()
    ensures forall e :: e in Elements ==> Consistent(e)
  {
    assert Consistent(Hydrogen) && Consistent(Helium);
    assert [2, 1][..1] == [2];
    assert Consistent(Lithium);
    assert [2, 4][..1] == [2];
    assert Consistent(Carbon);
    assert [2, 5][..1] == [2];
    assert Consistent(Nitrogen);
    assert [2, 6][..1] == [2];
    assert Consistent(Oxygen);
  }

  /** The drawing of every table element shows as many markers as its atomic number. */
  lemma DrawingMatchesAtomicNumber(e: Element, shells: seq<ShellView>)
    requires e in Elements
    requires |shells| == |e.electrons|
    requires forall k :: 0 <= k < |shells| ==> DrawnShell(shells[k], k, e.electrons[k])
    ensures MarkerCount(shells) == e.atomicNumber
  {
    DrawnShellsCount(shells, e.electrons);
    ElementsConsistent();
  }

  /** Rings drawn for a configuration carry exactly its total number of markers. */
  lemma {:induction false} DrawnShellsCount(shells: seq<ShellView>, electrons: seq<nat>)
    requires |shells| == |electrons|
    requires forall k :: 0 <= k < |shells| ==> DrawnShell(shells[k], k, electrons[k])
    ensures MarkerCount(shells) == ElectronTotal(electrons)
    decreases |shells|
  {
    if shells != [] {
      var last := |shells| - 1;
      assert DrawnShell(shells[last], last, electrons[last]);
      DrawnShellsCount(shells[..last], electrons[..last]);
    }
  }
}
