/**
 The player search: given a parsed JSON document and a display name, walk the
 document's "elements" list in order and return the first player record whose
 "web_name" field equals the name.

 The search raises where the subscripts it performs raise: a missing key is a
 KeyError naming the key, and subscripting or iterating a value of the wrong
 kind is a TypeError.  Only the elements up to and including the first match
 are ever looked at.
 */
module PlayerLookup {
  import opened JsonValues

  /** The four ways a search can end. */
  datatype SearchResult =
    | Found(player: Record)    // the first record whose "web_name" equals the name
    | NotFound                 // the loop ran to the end without a match
    | KeyError(key: string)    // a subscript asked for a key the object lacks
    | TypeError                // a subscript or the iteration met a value of the wrong kind

  const ElementsKey: string := "elements"
  const NameKey: string := "web_name"

  /** Asking `v` for its "web_name" succeeds. */
  predicate HasName(v: Json)
  {
    v.JObject? && NameKey in v.fields
  }

  /** `v` is a record whose "web_name" is exactly the string `name`.  A name
      field that is not a string never matches, and does not raise. */
  predicate IsMatch(v: Json, name: string)
  {
    HasName(v) && v.fields[NameKey] == JString(name)
  }

  /** The search looks at `v` and moves on: no error, no match. */
  predicate PassedOver(v: Json, name: string)
  {
    HasName(v) && v.fields[NameKey] != JString(name)
  }

  /** Every element before index `i` is passed over. */
  predicate ClearBefore(players: seq<Json>, name: string, i: int)
    requires 0 <= i <= |players|
  {
    forall j :: 0 <= j < i ==> PassedOver(players[j], name)
  }

  /** Index `i` holds the first record that matches `name`. */
  predicate FirstMatchAt(players: seq<Json>, name: string, i: int)
  {
    0 <= i < |players| && ClearBefore(players, name, i) && IsMatch(players[i], name)
  }

  /** Index `i` holds the first element that stops the search without
      matching it, because it is an object that lacks "web_name". */
  predicate FirstMissingNameAt(players: seq<Json>, name: string, i: int)
  {
    0 <= i < |players| && ClearBefore(players, name, i)
    && players[i].JObject? && NameKey !in players[i].fields
  }

  /** Index `i` holds the first element that stops the search because it is
      not an object at all, so it cannot be asked for a field by name. */
  predicate FirstNonObjectAt(players: seq<Json>, name: string, i: int)
  {
    0 <= i < |players| && ClearBefore(players, name, i) && !players[i].JObject?
  }

  /** The loop over a list of elements, with its early return. */
  function Scan(name: string, players: seq<Json>): (r: SearchResult)
    ensures r.NotFound? <==> ClearBefore(players, name, |players|)
    ensures r.Found? <==> exists i :: FirstMatchAt(players, name, i)
    ensures r.Found? ==>
      exists i :: FirstMatchAt(players, name, i) && players[i] == JObject(r.player)
    ensures r.KeyError? <==> exists i :: FirstMissingNameAt(players, name, i)
    ensures r.KeyError? ==> r.key == NameKey
    ensures r.TypeError? <==> exists i :: FirstNonObjectAt(players, name, i)
  {
    if |players| == 0 then NotFound
    else
      match players[0]
      case JObject(fields) =>
        if NameKey !in fields then
          HeadStops(players, name);
          KeyError(NameKey)
        else if fields[NameKey] == JString(name) then
          HeadStops(players, name);
          Found(fields)
        else
          ShiftPast(players, name);
          Scan(name, players[1..])
      case _ =>
        HeadStops(players, name);
        TypeError
  }

  /** When the head is passed over, every prefix fact about the list is the
      same fact about its tail, one index lower. */
  lemma ShiftPast(players: seq<Json>, name: string)
    requires |players| > 0 && PassedOver(players[0], name)
    ensures ClearBefore(players, name, |players|) <==> ClearBefore(players[1..], name, |players| - 1)
    ensures forall i {:trigger FirstMatchAt(players[1..], name, i)} ::
      FirstMatchAt(players, name, i + 1) <==> FirstMatchAt(players[1..], name, i)
    ensures forall i {:trigger FirstMissingNameAt(players[1..], name, i)} ::
      FirstMissingNameAt(players, name, i + 1) <==> FirstMissingNameAt(players[1..], name, i)
    ensures forall i {:trigger FirstNonObjectAt(players[1..], name, i)} ::
      FirstNonObjectAt(players, name, i + 1) <==> FirstNonObjectAt(players[1..], name, i)
    ensures !FirstMatchAt(players, name, 0) && !FirstMissingNameAt(players, name, 0)
      && !FirstNonObjectAt(players, name, 0)
    ensures (exists i :: FirstMatchAt(players, name, i)) <==>
      (exists i :: FirstMatchAt(players[1..], name, i))
    ensures (exists i :: FirstMissingNameAt(players, name, i)) <==>
      (exists i :: FirstMissingNameAt(players[1..], name, i))
    ensures (exists i :: FirstNonObjectAt(players, name, i)) <==>
      (exists i :: FirstNonObjectAt(players[1..], name, i))
  {
    forall i | 0 <= i < |players|
      ensures ClearBefore(players, name, i + 1) <==> ClearBefore(players[1..], name, i)
    {
      if ClearBefore(players[1..], name, i) {
        forall j | 0 <= j < i + 1
          ensures PassedOver(players[j], name)
        {
          if j > 0 {
            assert players[j] == players[1..][j - 1];
          }
        }
      }
    }
    if exists i :: FirstMatchAt(players, name, i) {
      var i :| FirstMatchAt(players, name, i);
      assert FirstMatchAt(players[1..], name, i - 1);
    }
    if exists i :: FirstMissingNameAt(players, name, i) {
      var i :| FirstMissingNameAt(players, name, i);
      assert FirstMissingNameAt(players[1..], name, i - 1);
    }
    if exists i :: FirstNonObjectAt(players, name, i) {
      var i :| FirstNonObjectAt(players, name, i);
      assert FirstNonObjectAt(players[1..], name, i - 1);
    }
  }

  /** When the head is not passed over, the search stops at index 0 and at
      no other index. */
  lemma HeadStops(players: seq<Json>, name: string)
    requires |players| > 0 && !PassedOver(players[0], name)
    ensures !ClearBefore(players, name, |players|)
    ensures forall i :: FirstMatchAt(players, name, i) ==> i == 0
    ensures forall i :: FirstMissingNameAt(players, name, i) ==> i == 0
    ensures forall i :: FirstNonObjectAt(players, name, i) ==> i == 0
    ensures FirstMatchAt(players, name, 0) <==> IsMatch(players[0], name)
    ensures FirstMissingNameAt(players, name, 0) <==>
      players[0].JObject? && NameKey !in players[0].fields
    ensures FirstNonObjectAt(players, name, 0) <==> !players[0].JObject?
  {
  }

  /** The loop `for player in elements`, over whatever value the document
      holds under "elements".  Iterating an object yields its keys and
      iterating a string yields one-character strings; asking either for
      "web_name" is a TypeError, so only an empty one gets through the loop.
      Null, booleans and numbers cannot be iterated. */
  function ScanElements(name: string, elements: Json): (r: SearchResult)
    ensures elements.JArray? ==> r == Scan(name, elements.items)
    ensures elements.JObject? ==> (r.NotFound? <==> |elements.fields| == 0)
    ensures elements.JString? ==> (r.NotFound? <==> |elements.s| == 0)
    ensures !elements.JArray? ==> r.NotFound? || r.TypeError?
    ensures elements.JNull? || elements.JBool? || elements.JNumber? ==> r == TypeError
  {
    match elements
    case JArray(players) => Scan(name, players)
    case JObject(fields) => if |fields| == 0 then NotFound else TypeError
    case JString(s) => if |s| == 0 then NotFound else TypeError
    case _ => TypeError
  }

  /** The document holds a list of elements under "elements". */
  predicate HasElements(data: Json, players: seq<Json>)
  {
    data.JObject? && ElementsKey in data.fields && data.fields[ElementsKey] == JArray(players)
  }

  /** The player search over a whole document: subscript it with "elements",
      then scan what that yields. */
  function FindPlayer(name: string, data: Json): (r: SearchResult)
    ensures r == KeyError(ElementsKey) <==> data.JObject? && ElementsKey !in data.fields
    ensures !data.JObject? ==> r == TypeError
    ensures data.JObject? && ElementsKey in data.fields ==>
      r == ScanElements(name, data.fields[ElementsKey])
    ensures r.KeyError? ==> r.key == ElementsKey || r.key == NameKey
    ensures forall players :: HasElements(data, players) ==> r == Scan(name, players)
    ensures HasElements(data, []) ==> r == NotFound
    ensures r.Found? ==> IsMatch(JObject(r.player), name)
    ensures r.Found? ==> exists players :: HasElements(data, players) && JObject(r.player) in players
  {
    match data
    case JObject(doc) =>
      if ElementsKey !in doc then KeyError(ElementsKey)
      else
        var elements := doc[ElementsKey];
        assert elements.JArray? ==> HasElements(data, elements.items);
        ScanElements(name, elements)
    case _ => TypeError
  }

  /** The search reads its input front to back and stops at the first element
      that ends it, so the outcome on a concatenation is the outcome on the
      first part unless that part is run through without stopping. */
  lemma {:induction false} ScanConcat(name: string, front: seq<Json>, back: seq<Json>)
    ensures Scan(name, front + back) ==
      if Scan(name, front).NotFound? then Scan(name, back) else Scan(name, front)
  {
    if |front| > 0 {
      assert (front + back)[0] == front[0];
      assert (front + back)[1..] == front[1..] + back;
      ScanConcat(name, front[1..], back);
    } else {
      assert front + back == back;
    }
  }

  /** The first match is returned whatever follows it: elements after it are
      never inspected, so they may be malformed in any way. */
  lemma LaterElementsIgnored(name: string, players: seq<Json>, i: int, later: seq<Json>)
    requires FirstMatchAt(players, name, i)
    ensures Scan(name, players[..i + 1] + later) == Found(players[i].fields)
  {
    var front := players[..i + 1];
    assert FirstMatchAt(front, name, i);
    ScanConcat(name, front, later);
  }

  /** On a list in which every element is a record with a "web_name", the
      search never raises: a name that is present is found, and a name that
      is absent gives NotFound. */
  lemma WellFormedLookup(name: string, players: seq<Json>)
    requires forall i :: 0 <= i < |players| ==> HasName(players[i])
    ensures Scan(name, players).Found? <==> exists i :: 0 <= i < |players| && IsMatch(players[i], name)
    ensures Scan(name, players).NotFound? <==> forall i :: 0 <= i < |players| ==> !IsMatch(players[i], name)
  {
  }

  /** The search written as the source's loop with an early return; it agrees
      with `FindPlayer` on every document. */
  method FindPlayerLoop(name: string, data: Json) returns (r: SearchResult)
    ensures r == FindPlayer(name, data)
  {
    if !data.JObject? {
      return TypeError;
    }
    if ElementsKey !in data.fields {
      return KeyError(ElementsKey);
    }
    var elements := data.fields[ElementsKey];
    if !elements.JArray? {
      return ScanElements(name, elements);
    }
    var players := elements.items;
    var k := 0;
    while k < |players|
      invariant 0 <= k <= |players|
      invariant Scan(name, players[k..]) == Scan(name, players)
    {
      var player := players[k];
      assert players[k..][0] == player && players[k..][1..] == players[k + 1..];
      if !player.JObject? {
        return TypeError;
      }
      if NameKey !in player.fields {
        return KeyError(NameKey);
      }
      if player.fields[NameKey] == JString(name) {
        return Found(player.fields);
      }
      k := k + 1;
    }
    assert players[k..] == [];
    r := NotFound;
  }
}
