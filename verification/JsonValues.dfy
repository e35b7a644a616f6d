/** JSON documents. A number is kept as its printed text, because the program only
    compares numbers for equality and prints them. */
module JsonValues {
  datatype Json =
    | Null
    | Bool(flag: bool)
    | Number(text: string)
    | String(chars: string)
    | Array(items: seq<Json>)
    | Object(members: map<string, Json>)

  /** The members of an object; anything else has none. */
  function Members(j: Json): map<string, Json> {
    if j.Object? then j.members else map[]
  }

  /** The member under `key`, or null where there is none. */
  function MemberOrNull(j: Json, key: string): Json {
    if key in Members(j) then Members(j)[key] else Null
  }

  /** How deeply objects nest inside `j`. */
  ghost function Height(j: Json): nat {
    if j.Object? then 1 + Highest(set key | key in j.members :: Height(j.members[key])) else 0
  }

  ghost function Highest(heights: set<nat>): (top: nat)
    ensures forall h :: h in heights ==> h <= top
  {
    if heights == {} then 0
    else
      var h :| h in heights;
      var rest := Highest(heights - {h});
      assert forall x :: x in heights ==> x == h || x in heights - {h};
      if rest < h then h else rest
  }

  /** A member nests less deeply than the object that holds it. */
  lemma MemberIsLower(j: Json, key: string)
    requires j.Object? && key in j.members
    ensures Height(j.members[key]) < Height(j)
  {
    var heights := set k | k in j.members :: Height(j.members[k]);
    assert Height(j) == 1 + Highest(heights);
    assert Height(j.members[key]) in heights;
  }
}
