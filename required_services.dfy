/**
 * The three backend services whose replies make up one verification, in the
 * order both the aggregation strategy and the final processor check them,
 * and the "first missing service" search both perform.
 */
module Services {
  import opened Values

  const Defraudadores: string := "defraudadores"
  const Restringido: string := "restringido"
  const Externas: string := "externas"

  const RequiredServices: seq<string> := [Defraudadores, Restringido, Externas]

  /** The three names as a set. */
  const RequiredSet: set<string> := {Defraudadores, Restringido, Externas}

  /** The message both checks report a missing service with. */
  function MissingServiceMessage(service: string): string {
    "Falta la respuesta del servicio: " + service
  }

  /** The first of `names` that is not in `present`, if any. */
  function FirstMissing(names: seq<string>, present: set<string>): (r: Option<string>)
    ensures r.None? <==> forall i :: 0 <= i < |names| ==> names[i] in present
    ensures r.Some? ==> exists i :: 0 <= i < |names| && names[i] == r.value
                                    && names[i] !in present
                                    && forall j :: 0 <= j < i ==> names[j] in present
  {
    if names == [] then None
    else if names[0] !in present then Some(names[0])
    else
      var rest := FirstMissing(names[1..], present);
      assert rest.Some? ==> exists i :: 1 <= i < |names| && names[i] == rest.value
                                        && names[i] !in present
                                        && forall j :: 0 <= j < i ==> names[j] in present;
      rest
  }

  /** Three different required names are all of them. */
  lemma ThreeDistinctRequired(a: string, b: string, c: string)
    requires a in RequiredSet && b in RequiredSet && c in RequiredSet
    requires a != b && a != c && b != c
    ensures {a, b, c} == RequiredSet
  {
    assert {a, b, c} <= RequiredSet;
    assert |{a, b, c}| == 3;
    assert |RequiredSet| == 3;
  }

  /** The search over the three required names: nothing is missing exactly
      when all three are present, and a reported name is a required one. */
  lemma FirstMissingRequired(present: set<string>)
    ensures FirstMissing(RequiredServices, present).None? <==> RequiredSet <= present
    ensures FirstMissing(RequiredServices, present).Some? ==>
              FirstMissing(RequiredServices, present).value in RequiredSet - present
  {
    var r := FirstMissing(RequiredServices, present);
    if r.Some? {
      var i :| 0 <= i < 3 && RequiredServices[i] == r.value && RequiredServices[i] !in present;
    } else {
      assert RequiredServices[0] in present && RequiredServices[1] in present && RequiredServices[2] in present;
    }
  }
}
