/** The association of input devices with hidraw nodes, and the lookup of a
    BlueZ address in it. */
module Hidraws {
  import opened Seqs
  import opened Text

  type Properties = map<string, string>

  /** A device found by udev: its syspath and properties. */
  datatype Device = Device(path: string, props: Properties)

  const PREFIX := "/sys/devices/"
  const DEV_NAME := "DEVNAME"
  const UNIQ := "UNIQ"

  // ---- Device keys ------------------------------------------------------------

  /** One leading and one trailing quote dropped. */
  function Unquoted(s: string): string {
    var t := if s != "" && s[0] == '\"' then s[1..] else s;
    if t != "" && t[|t| - 1] == '\"' then t[..|t| - 1] else t
  }

  function DeviceKey(serial: string): string {
    "dev_" + Replaced(Upper(Unquoted(serial)), ':', '_')
  }

  method CreateDeviceKey(serial: string) returns (key: string)
    ensures key == DeviceKey(serial)
  {
    var converted := serial;
    if converted != "" && converted[0] == '\"' {
      converted := converted[1..];
    }
    if converted != "" && converted[|converted| - 1] == '\"' {
      converted := converted[..|converted| - 1];
    }
    var local := new char[|converted|](i requires 0 <= i < |converted| => converted[i]);
    assert local[..] == converted;
    UpperInPlace(local);
    ReplaceInPlace(local, ':', '_');
    key := "dev_" + local[..];
  }

  function Quoted(s: string): string { "\"" + s + "\"" }

  /** The key under which an input device with this quoted UNIQ is filed is the
      key of a BlueZ address exactly when the two addresses agree ignoring case. */
  lemma AddressFindsItsUniq(uniq: string, address: string)
    requires MacLike(uniq) && MacLike(address)
    ensures DeviceKey(Quoted(uniq)) == DeviceKey(address) <==> Lower(uniq) == Lower(address)
  {
    QuotesDrop(uniq);
    assert Unquoted(address) == address;
    var x, y := Replaced(Upper(uniq), ':', '_'), Replaced(Upper(address), ':', '_');
    assert ("dev_" + x)[4..] == x && ("dev_" + y)[4..] == y;
    SameUpperIffSameLower(uniq, address);
  }

  /** The key of a serial number, character by character: quotes around it make no
      difference. */
  lemma KeyIsSpelled(s: string)
    requires MacLike(s)
    ensures DeviceKey(s) == DeviceKey("\"" + s + "\"") == DeviceKey("\"" + s) == DeviceKey(s + "\"")
    ensures "dev_" <= DeviceKey(s) && |DeviceKey(s)| == 4 + |s|
    ensures forall i :: 0 <= i < |s| ==>
              DeviceKey(s)[4 + i] ==
                if s[i] == ':' then '_' else if 'a' <= s[i] <= 'f' then (s[i] as int - 32) as char else s[i]
  {
    QuotesDrop(s);
    QuoteDrops(s);
  }

  lemma QuoteDrops(s: string)
    requires MacLike(s)
    ensures Unquoted(s) == Unquoted("\"" + s) == Unquoted(s + "\"") == s
  {
    assert ("\"" + s)[1..] == s && (s + "\"")[..|s|] == s;
  }

  lemma QuotesDrop(s: string)
    ensures Unquoted(Quoted(s)) == s
  {
    assert Quoted(s)[1..][..|s|] == s;
  }

  lemma SameUpperIffSameLower(a: string, b: string)
    requires MacLike(a) && MacLike(b)
    ensures Replaced(Upper(a), ':', '_') == Replaced(Upper(b), ':', '_') <==> Lower(a) == Lower(b)
  {
    var x, y := Replaced(Upper(a), ':', '_'), Replaced(Upper(b), ':', '_');
    if x == y {
      forall i | 0 <= i < |a| ensures ToLower(a[i]) == ToLower(b[i]) {
        assert x[i] == y[i];
      }
      assert Lower(a) == Lower(b);
    }
    if Lower(a) == Lower(b) {
      forall i | 0 <= i < |a| ensures x[i] == y[i] {
        assert Lower(a)[i] == Lower(b)[i];
      }
      assert x == y;
    }
  }

  // ---- Same parent device ---------------------------------------------------------

  function SameParent(input: string, hidraw: string): bool {
    if !(PREFIX <= input) || !(PREFIX <= hidraw) then false else
    var i, h := Find(input, "/input", 0), Find(hidraw, "/hidraw", 0);
    if i.None? || h.None? then false
    else if i.value < |PREFIX| || h.value < |PREFIX| then false
    else input[|PREFIX|..i.value] == hidraw[|PREFIX|..h.value]
  }

  /** The path is "/sys/devices/" + stem + marker + ..., and this is the first
      marker. */
  ghost predicate HasStem(path: string, marker: string, stem: string) {
    && "/sys/devices/" + stem + marker <= path
    && forall i :: 0 <= i < |"/sys/devices/"| + |stem| ==> !OccursAt(path, marker, i)
  }

  lemma StemIsWhatFindCuts(path: string, marker: string, stem: string)
    ensures HasStem(path, marker, stem) <==>
              PREFIX <= path && var f := Find(path, marker, 0);
              f.Some? && |PREFIX| <= f.value && path[|PREFIX|..f.value] == stem
  {
    if HasStem(path, marker, stem) {
      StemIsCut(path, marker, stem);
    }
    var f := Find(path, marker, 0);
    if PREFIX <= path && f.Some? && |PREFIX| <= f.value && path[|PREFIX|..f.value] == stem {
      CutIsStem(path, marker, stem, f.value);
    }
  }

  lemma StemIsCut(path: string, marker: string, stem: string)
    requires HasStem(path, marker, stem)
    ensures PREFIX <= path && Find(path, marker, 0) == Some(|PREFIX| + |stem|)
    ensures path[|PREFIX|..|PREFIX| + |stem|] == stem
  {
    PartsOf(path, PREFIX, stem, marker);
    assert OccursAt(path, marker, |PREFIX| + |stem|);
  }

  /** Where the parts of a beginning lie. */
  lemma PartsOf(s: string, a: string, b: string, c: string)
    requires a + b + c <= s
    ensures a <= s && s[|a|..|a| + |b|] == b && s[|a| + |b|..|a| + |b| + |c|] == c
  {
    assert s[..|a + b + c|] == a + b + c;
    assert s[..|a|] == (a + b + c)[..|a|] == a;
    assert s[|a|..|a| + |b|] == (a + b + c)[|a|..|a| + |b|] == b;
    assert s[|a| + |b|..|a| + |b| + |c|] == (a + b + c)[|a| + |b|..] == c;
  }

  lemma CutIsStem(path: string, marker: string, stem: string, at: nat)
    requires PREFIX <= path && Find(path, marker, 0) == Some(at)
    requires |PREFIX| <= at <= |path| && path[|PREFIX|..at] == stem
    ensures HasStem(path, marker, stem)
  {
  }

  /** Two paths are paired exactly when they lie under the same device. */
  lemma SameParentIffCommonStem(input: string, hidraw: string)
    ensures SameParent(input, hidraw) <==>
              exists stem :: HasStem(input, "/input", stem) && HasStem(hidraw, "/hidraw", stem)
  {
    if SameParent(input, hidraw) {
      var stem := input[|PREFIX|..Find(input, "/input", 0).value];
      StemIsWhatFindCuts(input, "/input", stem);
      StemIsWhatFindCuts(hidraw, "/hidraw", stem);
    }
    if stem :| HasStem(input, "/input", stem) && HasStem(hidraw, "/hidraw", stem) {
      StemIsWhatFindCuts(input, "/input", stem);
      StemIsWhatFindCuts(hidraw, "/hidraw", stem);
    }
  }

  // ---- The join ------------------------------------------------------------------------

  predicate Joins(input: Device, hidraw: Device) {
    SameParent(input.path, hidraw.path) && DEV_NAME in hidraw.props && UNIQ in input.props
  }

  function KeyOf(input: Device): string
    requires UNIQ in input.props
  {
    DeviceKey(input.props[UNIQ])
  }

  function JoinRow(m: map<string, string>, input: Device, hidraws: seq<Device>): map<string, string> {
    if hidraws == [] then m else
    var row, last := JoinRow(m, input, hidraws[..|hidraws| - 1]), hidraws[|hidraws| - 1];
    if Joins(input, last) then row[KeyOf(input) := last.props[DEV_NAME]] else row
  }

  /** What the nested loops leave, for one order of visiting the two maps. */
  function Join(inputs: seq<Device>, hidraws: seq<Device>): map<string, string> {
    if inputs == [] then map[] else
    JoinRow(Join(inputs[..|inputs| - 1], hidraws), inputs[|inputs| - 1], hidraws)
  }

  class Hidraw {
    var devices: map<string, string>

    constructor ()
      ensures devices == map[]
    {
      devices := map[];
    }

    /** The member get_hidraw_devices, for the orders in which the two unordered
        maps happen to be visited. */
    method GetHidrawDevices(inputs: seq<Device>, hidraws: seq<Device>) returns (found: bool)
      modifies this
      ensures devices == Join(inputs, hidraws) && Associates(devices, inputs, hidraws)
      ensures found <==> inputs != []
    {
      devices := map[];
      JoinAssociates(inputs, hidraws);
      if inputs == [] {
        return false;
      }
      for i := 0 to |inputs|
        invariant devices == Join(inputs[..i], hidraws)
      {
        assert inputs[..i + 1][..i] == inputs[..i];
        for h := 0 to |hidraws|
          invariant devices == JoinRow(Join(inputs[..i], hidraws), inputs[i], hidraws[..h])
        {
          assert hidraws[..h + 1][..h] == hidraws[..h];
          if SameParent(inputs[i].path, hidraws[h].path) {
            if DEV_NAME in hidraws[h].props {
              if UNIQ !in inputs[i].props {
                continue;
              }
              var key := CreateDeviceKey(inputs[i].props[UNIQ]);
              devices := devices[key := hidraws[h].props[DEV_NAME]];
            }
          }
        }
        assert hidraws[..|hidraws|] == hidraws;
      }
      assert inputs[..|inputs|] == inputs;
      found := true;
    }

    function FindHidDevice(key: string): (node: string)
      reads this
      ensures key !in devices ==> node == ""
    {
      if key in devices then devices[key] else ""
    }
  }

  /** The pair says that `key` is the node `name`. */
  predicate Says(input: Device, hidraw: Device, key: string, name: string) {
    Joins(input, hidraw) && KeyOf(input) == key && hidraw.props[DEV_NAME] == name
  }

  lemma {:induction false} RowEntries(m: map<string, string>, input: Device, hidraws: seq<Device>, key: string)
    ensures key in JoinRow(m, input, hidraws) <==>
              key in m || exists h :: h in hidraws && Joins(input, h) && KeyOf(input) == key
    ensures key in JoinRow(m, input, hidraws) ==>
              || (key in m && JoinRow(m, input, hidraws)[key] == m[key])
              || exists h :: h in hidraws && Says(input, h, key, JoinRow(m, input, hidraws)[key])
  {
    if hidraws != [] {
      var front, last := hidraws[..|hidraws| - 1], hidraws[|hidraws| - 1];
      assert hidraws == front + [last];
      RowEntries(m, input, front, key);
      assert forall h :: h in front ==> h in hidraws;
      assert last in hidraws;
    }
  }

  /** The association is the relational join: a key is present exactly when some
      matching pair has it, and its node is that of a matching pair. */
  lemma {:induction false} JoinIsRelational(inputs: seq<Device>, hidraws: seq<Device>, key: string)
    ensures key in Join(inputs, hidraws) <==>
              exists i, h :: i in inputs && h in hidraws && Joins(i, h) && KeyOf(i) == key
    ensures key in Join(inputs, hidraws) ==>
              exists i, h :: i in inputs && h in hidraws && Says(i, h, key, Join(inputs, hidraws)[key])
  {
    if inputs != [] {
      var front, last := inputs[..|inputs| - 1], inputs[|inputs| - 1];
      assert inputs == front + [last];
      JoinIsRelational(front, hidraws, key);
      RowEntries(Join(front, hidraws), last, hidraws, key);
      assert forall i :: i in front ==> i in inputs;
      assert last in inputs;
    }
  }

  // ---- The join, by paths and properties alone ---------------------------------------------

  /** The two devices lie under one device. */
  ghost predicate CommonStem(input: string, hidraw: string) {
    exists stem :: HasStem(input, "/input", stem) && HasStem(hidraw, "/hidraw", stem)
  }

  /** The input has this key and the hidraw node of the same device this name. */
  ghost predicate Gives(input: Device, hidraw: Device, key: string, name: string) {
    && CommonStem(input.path, hidraw.path)
    && "DEVNAME" in hidraw.props && hidraw.props["DEVNAME"] == name
    && "UNIQ" in input.props && DeviceKey(input.props["UNIQ"]) == key
  }

  /** The association holds exactly what the pairs give. */
  ghost predicate Associates(found: map<string, string>, inputs: seq<Device>, hidraws: seq<Device>) {
    && (forall key :: key in found ==>
          exists i, h :: i in inputs && h in hidraws && Gives(i, h, key, found[key]))
    && (forall i, h, key, name :: i in inputs && h in hidraws && Gives(i, h, key, name) ==> key in found)
  }

  lemma GivesIsSays(input: Device, hidraw: Device, key: string, name: string)
    ensures Gives(input, hidraw, key, name) <==> Says(input, hidraw, key, name)
  {
    SameParentIffCommonStem(input.path, hidraw.path);
  }

  lemma JoinAssociates(inputs: seq<Device>, hidraws: seq<Device>)
    ensures Associates(Join(inputs, hidraws), inputs, hidraws)
  {
    var found := Join(inputs, hidraws);
    forall key | key in found ensures exists i, h :: i in inputs && h in hidraws && Gives(i, h, key, found[key]) {
      JoinIsRelational(inputs, hidraws, key);
      var i, h :| i in inputs && h in hidraws && Says(i, h, key, found[key]);
      GivesIsSays(i, h, key, found[key]);
    }
    forall i, h, key, name | i in inputs && h in hidraws && Gives(i, h, key, name) ensures key in found {
      GivesIsSays(i, h, key, name);
      JoinIsRelational(inputs, hidraws, key);
    }
  }

  // ---- Independence of the visiting order --------------------------------------------------

  /** Equal keys, equal nodes. */
  predicate Agree(i: Device, h: Device, j: Device, k: Device) {
    Joins(i, h) && Joins(j, k) && KeyOf(i) == KeyOf(j) ==> h.props[DEV_NAME] == k.props[DEV_NAME]
  }

  ghost predicate Unambiguous(inputs: set<Device>, hidraws: set<Device>) {
    forall i, h, j, k {:trigger Agree(i, h, j, k)} ::
      i in inputs && h in hidraws && j in inputs && k in hidraws ==> Agree(i, h, j, k)
  }

  /** Two ways to visit the same devices. */
  ghost predicate SameDevices(s: seq<Device>, t: seq<Device>) {
    NoDup(s) && NoDup(t) && Elems(s) == Elems(t)
  }

  lemma JoinIncluded(inputs: seq<Device>, hidraws: seq<Device>, inputs': seq<Device>, hidraws': seq<Device>,
                     key: string)
    requires Elems(inputs) == Elems(inputs') && Elems(hidraws) == Elems(hidraws')
    requires Unambiguous(Elems(inputs), Elems(hidraws)) && key in Join(inputs, hidraws)
    ensures key in Join(inputs', hidraws') && Join(inputs', hidraws')[key] == Join(inputs, hidraws)[key]
  {
    JoinIsRelational(inputs, hidraws, key);
    JoinIsRelational(inputs', hidraws', key);
    var i, h :| i in inputs && h in hidraws && Says(i, h, key, Join(inputs, hidraws)[key]);
    assert i in Elems(inputs') && h in Elems(hidraws');
    var j, k :| j in inputs' && k in hidraws' && Says(j, k, key, Join(inputs', hidraws')[key]);
    assert j in Elems(inputs') && k in Elems(hidraws');
    assert Agree(i, h, j, k);
  }

  lemma UnambiguousJoinsAgree(inputs: seq<Device>, hidraws: seq<Device>, inputs': seq<Device>, hidraws': seq<Device>)
    requires Elems(inputs) == Elems(inputs') && Elems(hidraws) == Elems(hidraws')
    requires Unambiguous(Elems(inputs), Elems(hidraws))
    ensures Join(inputs, hidraws) == Join(inputs', hidraws')
  {
    var a, b := Join(inputs, hidraws), Join(inputs', hidraws');
    forall key | key in a ensures key in b && a[key] == b[key] {
      JoinIncluded(inputs, hidraws, inputs', hidraws', key);
    }
    forall key | key in b ensures key in a {
      JoinIncluded(inputs', hidraws', inputs, hidraws, key);
    }
    assert a.Keys == b.Keys;
  }

  /** The pair visited last decides. */
  lemma LastPairWins(inputs: seq<Device>, hidraws: seq<Device>)
    requires inputs != [] && hidraws != [] && Joins(inputs[|inputs| - 1], hidraws[|hidraws| - 1])
    ensures var key := KeyOf(inputs[|inputs| - 1]);
            key in Join(inputs, hidraws) && Join(inputs, hidraws)[key] == hidraws[|hidraws| - 1].props[DEV_NAME]
  {
  }

  /** The same devices with `x` visited last. */
  lemma MovedLast(s: seq<Device>, x: Device)
    requires NoDup(s) && x in s
    ensures SameDevices(s, Without(s, {x}) + [x])
  {
    WithoutElems(s, {x});
    assert x !in Elems(Without(s, {x}));
    assert Elems(Without(s, {x}) + [x]) == Elems(Without(s, {x})) + {x};
  }

  ghost predicate OrderIndependent(inputs: seq<Device>, hidraws: seq<Device>) {
    forall inputs', hidraws' :: SameDevices(inputs, inputs') && SameDevices(hidraws, hidraws') ==>
      Join(inputs', hidraws') == Join(inputs, hidraws)
  }

  /** The result does not depend on the iteration order of the two hash maps if
      and only if equal keys imply equal nodes. */
  lemma OrderIndependentIffUnambiguous(inputs: seq<Device>, hidraws: seq<Device>)
    requires NoDup(inputs) && NoDup(hidraws)
    ensures OrderIndependent(inputs, hidraws) <==> Unambiguous(Elems(inputs), Elems(hidraws))
  {
    if Unambiguous(Elems(inputs), Elems(hidraws)) {
      forall inputs', hidraws' | SameDevices(inputs, inputs') && SameDevices(hidraws, hidraws')
        ensures Join(inputs', hidraws') == Join(inputs, hidraws)
      {
        UnambiguousJoinsAgree(inputs, hidraws, inputs', hidraws');
      }
    }
    if OrderIndependent(inputs, hidraws) {
      forall i, h, j, k | i in Elems(inputs) && h in Elems(hidraws) && j in Elems(inputs) && k in Elems(hidraws)
        ensures Agree(i, h, j, k)
      {
        if Joins(i, h) && Joins(j, k) {
          EveryPairDecides(inputs, hidraws, i, h);
          EveryPairDecides(inputs, hidraws, j, k);
        }
      }
    }
  }

  /** Any matching pair can be visited last, so an order-independent result says
      what that pair says. */
  lemma EveryPairDecides(inputs: seq<Device>, hidraws: seq<Device>, i: Device, h: Device)
    requires NoDup(inputs) && NoDup(hidraws) && OrderIndependent(inputs, hidraws)
    requires i in inputs && h in hidraws && Joins(i, h)
    ensures KeyOf(i) in Join(inputs, hidraws) && Join(inputs, hidraws)[KeyOf(i)] == h.props[DEV_NAME]
  {
    MovedLast(inputs, i);
    MovedLast(hidraws, h);
    var inputs', hidraws' := Without(inputs, {i}) + [i], Without(hidraws, {h}) + [h];
    LastPairWins(inputs', hidraws');
    assert Join(inputs', hidraws') == Join(inputs, hidraws);
  }

  /** Every matching pair with this key says this node. */
  ghost predicate AllSay(inputs: seq<Device>, hidraws: seq<Device>, key: string, name: string) {
    forall j, k {:trigger Joins(j, k)} ::
      j in inputs && k in hidraws && Joins(j, k) && KeyOf(j) == key ==> k.props[DEV_NAME] == name
  }

  /** Whatever the visiting order, `key` leads to `name`. */
  ghost predicate AlwaysFinds(inputs: seq<Device>, hidraws: seq<Device>, key: string, name: string) {
    forall inputs', hidraws' :: SameDevices(inputs, inputs') && SameDevices(hidraws, hidraws') ==>
      key in Join(inputs', hidraws') && Join(inputs', hidraws')[key] == name
  }

  lemma AllSayIsFound(inputs: seq<Device>, hidraws: seq<Device>, inputs': seq<Device>, hidraws': seq<Device>,
                      i: Device, h: Device, key: string, name: string)
    requires i in inputs && h in hidraws && Says(i, h, key, name) && AllSay(inputs, hidraws, key, name)
    requires Elems(inputs) == Elems(inputs') && Elems(hidraws) == Elems(hidraws')
    ensures key in Join(inputs', hidraws') && Join(inputs', hidraws')[key] == name
  {
    assert i in Elems(inputs') && h in Elems(hidraws');
    JoinIsRelational(inputs', hidraws', key);
    var j, k :| j in inputs' && k in hidraws' && Says(j, k, key, Join(inputs', hidraws')[key]);
    assert j in Elems(inputs') && k in Elems(hidraws');
    assert j in inputs && k in hidraws && Joins(j, k);
  }

  lemma FoundIsSaid(inputs: seq<Device>, hidraws: seq<Device>, j: Device, k: Device, key: string, name: string)
    requires NoDup(inputs) && NoDup(hidraws) && AlwaysFinds(inputs, hidraws, key, name)
    requires j in inputs && k in hidraws && Joins(j, k) && KeyOf(j) == key
    ensures k.props[DEV_NAME] == name
  {
    MovedLast(inputs, j);
    MovedLast(hidraws, k);
    LastPairWins(Without(inputs, {j}) + [j], Without(hidraws, {k}) + [k]);
  }

  /** Looking up a BlueZ address finds the node of the input device whose UNIQ is
      that address in quotes, in any letter case and whatever the visiting order, if
      and only if no other pair of that address says another node. */
  lemma LookupFindsTheNodeIff(inputs: seq<Device>, hidraws: seq<Device>, i: Device, h: Device,
                              uniq: string, address: string)
    requires NoDup(inputs) && NoDup(hidraws)
    requires i in inputs && h in hidraws && Joins(i, h) && i.props[UNIQ] == Quoted(uniq)
    requires MacLike(uniq) && MacLike(address) && Lower(uniq) == Lower(address)
    ensures AlwaysFinds(inputs, hidraws, DeviceKey(address), h.props[DEV_NAME])
            <==> AllSay(inputs, hidraws, DeviceKey(address), h.props[DEV_NAME])
  {
    AddressFindsItsUniq(uniq, address);
    var key, name := DeviceKey(address), h.props[DEV_NAME];
    if AllSay(inputs, hidraws, key, name) {
      forall inputs', hidraws' | SameDevices(inputs, inputs') && SameDevices(hidraws, hidraws')
        ensures key in Join(inputs', hidraws') && Join(inputs', hidraws')[key] == name
      {
        AllSayIsFound(inputs, hidraws, inputs', hidraws', i, h, key, name);
      }
    }
    if AlwaysFinds(inputs, hidraws, key, name) {
      forall j, k | j in inputs && k in hidraws && Joins(j, k) && KeyOf(j) == key ensures k.props[DEV_NAME] == name {
        FoundIsSaid(inputs, hidraws, j, k, key, name);
      }
    }
  }
}
