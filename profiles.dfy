/** The profiles of the AWS config file (src/AWS/Profiles.php). The ini
    parser's output, the config file's sections in file order, is the input;
    section names are normalised by deleting "profile " and the first section
    with a given normalised name wins. */
module Profiles {
  import opened Php

  /** The keys and raw values of one ini section. */
  type ProfileData = map<string, string>

  datatype Section = Section(name: string, data: ProfileData)

  /** A PHP array from profile name to profile data: the key map together
      with the keys in insertion order. */
  datatype Table = Table(names: seq<string>, data: map<string, ProfileData>)

  const Marker: string := "profile "

  predicate MarkerAt(s: string, i: nat)
  {
    i + |Marker| <= |s| && s[i..i + |Marker|] == Marker
  }

  predicate ContainsMarker(s: string)
  {
    exists i: nat | i <= |s| :: MarkerAt(s, i)
  }

  /** s begins with "profile ", spelled out character by character. */
  predicate StartsWithMarker(s: string)
  {
    && |s| >= 8
    && s[0] == 'p' && s[1] == 'r' && s[2] == 'o' && s[3] == 'f'
    && s[4] == 'i' && s[5] == 'l' && s[6] == 'e' && s[7] == ' '
  }

  lemma StartsWithMarkerIsPrefix(s: string)
    ensures StartsWithMarker(s) <==> |s| >= |Marker| && s[..|Marker|] == Marker
  {
    if |s| >= |Marker| && s[..|Marker|] == Marker {
      assert forall k :: 0 <= k < |Marker| ==> s[k] == s[..|Marker|][k];
    }
  }

  /** `str_replace('profile ', '', $name)`: one left-to-right pass that
      deletes every non-overlapping occurrence. */
  function Normalise(name: string): string
    decreases |name|
  {
    if StartsWithMarker(name) then Normalise(name[|Marker|..])
    else if name == [] then []
    else [name[0]] + Normalise(name[1..])
  }

  lemma {:induction false} NormaliseShortens(s: string)
    ensures |Normalise(s)| <= |s|
    decreases |s|
  {
    if StartsWithMarker(s) {
      NormaliseShortens(s[|Marker|..]);
    } else if s != [] {
      NormaliseShortens(s[1..]);
    }
  }

  /** No proper suffix of a prefix of the marker starts it again, so a scan
      that has not matched before an occurrence cannot overlap into it. */
  lemma NoMarkerStraddles(a: string, rest: string)
    requires 0 < |a| < |Marker|
    ensures !StartsWithMarker(a + Marker + rest)
  {
    var s := a + Marker + rest;
    assert s[|a|] == 'p';
  }

  lemma DeletesAfterMarker(a: string, b: string)
    requires StartsWithMarker(a)
    requires Normalise(a[|Marker|..] + Marker + b) == Normalise(a[|Marker|..]) + Normalise(b)
    ensures Normalise(a + Marker + b) == Normalise(a) + Normalise(b)
  {
    var s := a + Marker + b;
    assert StartsWithMarker(s) by {
      assert forall k :: 0 <= k < |Marker| ==> s[k] == a[k];
    }
    assert s[|Marker|..] == a[|Marker|..] + Marker + b;
  }

  /** A name that does not start with the marker does not start with it
      either once an occurrence and more text are appended. */
  lemma StillNoMarkerStart(a: string, b: string)
    requires a != [] && !StartsWithMarker(a)
    ensures !StartsWithMarker(a + Marker + b)
  {
    var s := a + Marker + b;
    if |a| >= |Marker| {
      assert forall k :: 0 <= k < |Marker| ==> s[k] == a[k];
    } else {
      NoMarkerStraddles(a, b);
    }
  }

  lemma DeletesAfterOther(a: string, b: string)
    requires a != [] && !StartsWithMarker(a)
    requires Normalise(a[1..] + Marker + b) == Normalise(a[1..]) + Normalise(b)
    ensures Normalise(a + Marker + b) == Normalise(a) + Normalise(b)
  {
    var s := a + Marker + b;
    StillNoMarkerStart(a, b);
    assert s[0] == a[0];
    assert s[1..] == a[1..] + Marker + b;
    calc {
      Normalise(s);
      [a[0]] + Normalise(a[1..] + Marker + b);
      [a[0]] + (Normalise(a[1..]) + Normalise(b));
      ([a[0]] + Normalise(a[1..])) + Normalise(b);
    }
  }

  /** Every occurrence of "profile " is deleted, wherever it stands:
      normalising a name with an occurrence in the middle is normalising
      the two sides separately. */
  lemma {:induction false} NormaliseDeletesEveryOccurrence(a: string, b: string)
    ensures Normalise(a + Marker + b) == Normalise(a) + Normalise(b)
    decreases |a|
  {
    if a == [] {
      var s := Marker + b;
      assert a + Marker + b == s;
      assert StartsWithMarker(s) && s[|Marker|..] == b;
    } else if StartsWithMarker(a) {
      NormaliseDeletesEveryOccurrence(a[|Marker|..], b);
      DeletesAfterMarker(a, b);
    } else {
      NormaliseDeletesEveryOccurrence(a[1..], b);
      DeletesAfterOther(a, b);
    }
  }

  /** A name is left as it is exactly when "profile " does not occur in it. */
  lemma {:induction false} NormaliseFixesExactlyUnmarked(s: string)
    ensures Normalise(s) == s <==> !ContainsMarker(s)
    decreases |s|
  {
    if ContainsMarker(s) {
      var i: nat :| i <= |s| && MarkerAt(s, i);
      assert s == s[..i] + Marker + s[i + |Marker|..];
      NormaliseDeletesEveryOccurrence(s[..i], s[i + |Marker|..]);
      NormaliseShortens(s[..i]);
      NormaliseShortens(s[i + |Marker|..]);
    } else {
      assert !MarkerAt(s, 0);
      StartsWithMarkerIsPrefix(s);
      assert |s| >= |Marker| ==> s[0..|Marker|] == s[..|Marker|];
      if s != [] {
        forall i: nat | MarkerAt(s[1..], i) ensures MarkerAt(s, i + 1) {
          assert s[i + 1..i + 1 + |Marker|] == s[1..][i..i + |Marker|];
        }
        NormaliseFixesExactlyUnmarked(s[1..]);
        assert s == [s[0]] + s[1..];
      }
    }
  }

  /** `if (!isset($profileData[$name])) $profileData[$name] = $profile;` */
  function Insert(t: Table, s: Section): Table
  {
    var key := Normalise(s.name);
    if key in t.data then t else Table(t.names + [key], t.data[key := s.data])
  }

  /** The value of all(): the sections folded into a table in file order. */
  function AllOf(sections: seq<Section>): Table
    decreases |sections|
  {
    if sections == [] then Table([], map[])
    else Insert(AllOf(sections[..|sections| - 1]), sections[|sections| - 1])
  }

  /** all(): the foreach over the parsed sections. */
  method All(sections: seq<Section>) returns (t: Table)
    ensures t == AllOf(sections)
  {
    var names: seq<string> := [];
    var profileData: map<string, ProfileData> := map[];
    var i := 0;
    while i < |sections|
      invariant 0 <= i <= |sections|
      invariant Table(names, profileData) == AllOf(sections[..i])
    {
      var name := Normalise(sections[i].name);
      if name !in profileData {
        names := names + [name];
        profileData := profileData[name := sections[i].data];
      }
      assert sections[..i + 1][..i] == sections[..i];
      i := i + 1;
    }
    assert sections[..i] == sections;
    t := Table(names, profileData);
  }

  /** The position of the first section whose name normalises to key, or
      |sections| when there is none. */
  function FirstIndex(sections: seq<Section>, key: string): (i: nat)
    ensures i <= |sections|
    ensures i < |sections| ==> Normalise(sections[i].name) == key
    ensures forall j :: 0 <= j < i ==> Normalise(sections[j].name) != key
    decreases |sections|
  {
    if sections == [] then 0
    else if Normalise(sections[0].name) == key then 0
    else 1 + FirstIndex(sections[1..], key)
  }

  lemma FirstIndexOfAppended(sections: seq<Section>, s: Section, key: string)
    ensures FirstIndex(sections + [s], key) ==
      if FirstIndex(sections, key) < |sections| then FirstIndex(sections, key)
      else if Normalise(s.name) == key then |sections|
      else |sections| + 1
  {
    var all := sections + [s];
    assert forall j :: 0 <= j < |sections| ==> all[j] == sections[j];
    assert all[|sections|] == s;
  }

  predicate Distinct(names: seq<string>)
  {
    forall a, b :: 0 <= a < b < |names| ==> names[a] != names[b]
  }

  /** The listed names are the keys. */
  ghost predicate NamesAreKeys(t: Table)
  {
    forall k :: k in t.names <==> k in t.data
  }

  /** The keys are the normalised names that occur in the sections.
      DatabaseProxy.KeysOccur and DatabaseProxy.InFirstOrder state the same
      facts for the instance array keyed by identifier. */
  ghost predicate KeysOccur(t: Table, sections: seq<Section>)
  {
    forall k :: k in t.data <==> FirstIndex(sections, k) < |sections|
  }

  /** Each key holds the data of the first section with that name. */
  ghost predicate FirstWins(t: Table, sections: seq<Section>)
    requires KeysOccur(t, sections)
  {
    forall k :: k in t.data ==> t.data[k] == sections[FirstIndex(sections, k)].data
  }

  /** The names are listed in the order of their first sections. */
  ghost predicate InFirstOrder(t: Table, sections: seq<Section>)
  {
    forall a, b :: 0 <= a < b < |t.names| ==>
      FirstIndex(sections, t.names[a]) < FirstIndex(sections, t.names[b])
  }

  /** What all() holds after reading `sections`. */
  ghost predicate Describes(t: Table, sections: seq<Section>)
  {
    && Distinct(t.names)
    && NamesAreKeys(t)
    && KeysOccur(t, sections)
    && FirstWins(t, sections)
    && InFirstOrder(t, sections)
  }

  /** How first positions move when a section is appended after the ones
      that produced t0. */
  ghost predicate FirstsAfterAppend(t0: Table, init: seq<Section>, s: Section)
  {
    && (forall k :: k in t0.data ==> FirstIndex(init + [s], k) == FirstIndex(init, k))
    && (forall k :: k !in t0.data ==>
          FirstIndex(init + [s], k) == if Normalise(s.name) == k then |init| else |init| + 1)
  }

  lemma AppendMovesFirsts(t0: Table, init: seq<Section>, s: Section)
    requires KeysOccur(t0, init)
    ensures FirstsAfterAppend(t0, init, s)
  {
    forall k {
      FirstIndexOfAppended(init, s, k);
    }
  }

  lemma StepNames(t0: Table, s: Section)
    requires Distinct(t0.names) && NamesAreKeys(t0)
    ensures Distinct(Insert(t0, s).names) && NamesAreKeys(Insert(t0, s))
  {
    var key := Normalise(s.name);
    if key !in t0.data {
      var t := Insert(t0, s);
      assert t.names == t0.names + [key];
      forall a | 0 <= a < |t0.names| ensures t.names[a] != key {
        assert t.names[a] == t0.names[a] && t0.names[a] in t0.names;
      }
    }
  }

  lemma StepKeys(t0: Table, init: seq<Section>, s: Section)
    requires KeysOccur(t0, init) && FirstsAfterAppend(t0, init, s)
    ensures KeysOccur(Insert(t0, s), init + [s])
  {
  }

  lemma StepData(t0: Table, init: seq<Section>, s: Section)
    requires KeysOccur(t0, init) && FirstWins(t0, init) && FirstsAfterAppend(t0, init, s)
    ensures KeysOccur(Insert(t0, s), init + [s]) && FirstWins(Insert(t0, s), init + [s])
  {
    var sections := init + [s];
    var t := Insert(t0, s);
    StepKeys(t0, init, s);
    forall k | k in t.data ensures t.data[k] == sections[FirstIndex(sections, k)].data {
      if k in t0.data {
        assert sections[FirstIndex(init, k)] == init[FirstIndex(init, k)];
      } else {
        assert sections[|init|] == s;
      }
    }
  }

  lemma StepOrder(t0: Table, init: seq<Section>, s: Section)
    requires NamesAreKeys(t0) && KeysOccur(t0, init) && InFirstOrder(t0, init)
    requires FirstsAfterAppend(t0, init, s)
    ensures InFirstOrder(Insert(t0, s), init + [s])
  {
    var sections := init + [s];
    var t := Insert(t0, s);
    var key := Normalise(s.name);
    if key !in t0.data {
      assert t.names == t0.names + [key];
      forall a, b | 0 <= a < b < |t.names|
        ensures FirstIndex(sections, t.names[a]) < FirstIndex(sections, t.names[b])
      {
        assert t.names[a] == t0.names[a] && t0.names[a] in t0.names;
        if b < |t0.names| {
          assert t.names[b] == t0.names[b] && t0.names[b] in t0.names;
        }
      }
    }
  }

  /** all() is described by the predicates above. */
  lemma {:induction false} AllOfFacts(sections: seq<Section>)
    ensures Describes(AllOf(sections), sections)
    decreases |sections|
  {
    if sections != [] {
      var n := |sections| - 1;
      var init, s := sections[..n], sections[n];
      assert sections == init + [s];
      AllOfFacts(init);
      var t0 := AllOf(init);
      AppendMovesFirsts(t0, init, s);
      StepNames(t0, s);
      StepData(t0, init, s);
      StepOrder(t0, init, s);
    }
  }

  /** The set of profile names is the set of normalised section names. */
  lemma {:induction false} ProfileNamesAreNormalisedNames(sections: seq<Section>)
    ensures AllOf(sections).data.Keys == set i | 0 <= i < |sections| :: Normalise(sections[i].name)
  {
    AllOfFacts(sections);
    var names := set i | 0 <= i < |sections| :: Normalise(sections[i].name);
    forall k | k in names ensures k in AllOf(sections).data {
      var i :| 0 <= i < |sections| && Normalise(sections[i].name) == k;
      assert FirstIndex(sections, k) <= i;
    }
    forall k | k in AllOf(sections).data ensures k in names {
      var i := FirstIndex(sections, k);
      assert Normalise(sections[i].name) == k;
    }
  }

  /** get(): the data of the first section that normalises to profile, or
      None when no section does. */
  function Get(sections: seq<Section>, profile: string): (r: Option<ProfileData>)
    ensures r.Some? <==> FirstIndex(sections, profile) < |sections|
    ensures r.Some? ==> r.value == sections[FirstIndex(sections, profile)].data
  {
    AllOfFacts(sections);
    var t := AllOf(sections);
    if profile in t.data then Some(t.data[profile]) else None
  }

  /** list(): the profile names without duplicates, in the order in which
      they first appear in the file. */
  function List(sections: seq<Section>): (r: seq<string>)
    ensures Distinct(r)
    ensures forall k :: k in r <==> FirstIndex(sections, k) < |sections|
    ensures forall a, b :: 0 <= a < b < |r| ==> FirstIndex(sections, r[a]) < FirstIndex(sections, r[b])
  {
    AllOfFacts(sections);
    AllOf(sections).names
  }
}
