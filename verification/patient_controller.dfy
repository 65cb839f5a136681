/** The patient's health profile: read it, or update any of its four sections by a shallow
    merge, creating the profile on first update. */
module PatientController {
  import opened Common

  /** A stored profile; each section is an object of fields. */
  datatype Profile = Profile(userId: string, demographics: map<string, Json>, lifestyle: map<string, Json>,
                             hereditary: map<string, Json>, medicalHistory: map<string, Json>)

  /** A request body: each section is present (an object) or absent. */
  datatype ProfileUpdate = ProfileUpdate(demographics: Option<map<string, Json>>, lifestyle: Option<map<string, Json>>,
                                         hereditary: Option<map<string, Json>>, medicalHistory: Option<map<string, Json>>)

  /** `{ ...old, ...update }`: the keys of both; the update's value wins, other old values stay. */
  function Merge(current: map<string, Json>, update: map<string, Json>): (m: map<string, Json>)
    ensures m.Keys == current.Keys + update.Keys
    ensures forall k :: k in update ==> m[k] == update[k]
    ensures forall k :: k in current && k !in update ==> m[k] == current[k]
  {
    current + update
  }

  /** Merging the same update twice is merging it once, and merging nothing changes nothing. */
  lemma MergeFacts(a: map<string, Json>, b: map<string, Json>)
    ensures Merge(Merge(a, b), b) == Merge(a, b)
    ensures Merge(a, map[]) == a
  {
  }

  /** A present section is merged into the profile's section; an absent one leaves it. */
  function MergeSection(current: map<string, Json>, update: Option<map<string, Json>>): map<string, Json> {
    if update.Some? then Merge(current, update.value) else current
  }

  function EmptyProfile(userId: string): Profile {
    Profile(userId, map[], map[], map[], map[])
  }

  /** The profile after an update: each section merged when present in the body and left as it
      was when absent; the owner never changes. */
  function Updated(p: Profile, body: ProfileUpdate): (q: Profile)
    ensures q.userId == p.userId
    ensures body.demographics.None? ==> q.demographics == p.demographics
    ensures body.lifestyle.None? ==> q.lifestyle == p.lifestyle
    ensures body.hereditary.None? ==> q.hereditary == p.hereditary
    ensures body.medicalHistory.None? ==> q.medicalHistory == p.medicalHistory
    ensures body.demographics.Some? ==> q.demographics == Merge(p.demographics, body.demographics.value)
    ensures body.lifestyle.Some? ==> q.lifestyle == Merge(p.lifestyle, body.lifestyle.value)
    ensures body.hereditary.Some? ==> q.hereditary == Merge(p.hereditary, body.hereditary.value)
    ensures body.medicalHistory.Some? ==> q.medicalHistory == Merge(p.medicalHistory, body.medicalHistory.value)
  {
    Profile(p.userId, MergeSection(p.demographics, body.demographics), MergeSection(p.lifestyle, body.lifestyle),
            MergeSection(p.hereditary, body.hereditary), MergeSection(p.medicalHistory, body.medicalHistory))
  }

  /** Sending the same update twice has the effect of sending it once. */
  lemma UpdateIdempotent(p: Profile, body: ProfileUpdate)
    ensures Updated(Updated(p, body), body) == Updated(p, body)
  {
    MergeFacts(p.demographics, if body.demographics.Some? then body.demographics.value else map[]);
    MergeFacts(p.lifestyle, if body.lifestyle.Some? then body.lifestyle.value else map[]);
    MergeFacts(p.hereditary, if body.hereditary.Some? then body.hereditary.value else map[]);
    MergeFacts(p.medicalHistory, if body.medicalHistory.Some? then body.medicalHistory.value else map[]);
  }

  /** The profiles, one per user. */
  class ProfileStore {
    var profiles: map<string, Profile>

    /** Every profile is filed under its owner. */
    ghost predicate Valid()
      reads this
    {
      forall u :: u in profiles ==> profiles[u].userId == u
    }

    constructor ()
      ensures profiles == map[] && Valid()
    {
      profiles := map[];
    }

    /** 404 when the user has no profile, else 200 with it. */
    method GetProfile(userId: string) returns (status: int, profile: Option<Profile>)
      ensures status == 404 <==> userId !in profiles
      ensures status == 404 ==> profile.None?
      ensures status == 200 <==> userId in profiles
      ensures status == 200 ==> profile == Some(profiles[userId])
    {
      if userId !in profiles {
        return 404, None;
      }
      return 200, Some(profiles[userId]);
    }

    /** Merges the present sections into the user's profile, creating it first when missing,
        and stores it; no other user's profile changes. */
    method UpdateProfile(userId: string, body: ProfileUpdate) returns (profile: Profile)
      requires Valid()
      modifies this
      ensures Valid()
      ensures profile == Updated(if userId in old(profiles) then old(profiles)[userId] else EmptyProfile(userId), body)
      ensures profiles == old(profiles)[userId := profile]
    {
      var p := if userId in profiles then profiles[userId] else EmptyProfile(userId);
      if body.demographics.Some? { p := p.(demographics := Merge(p.demographics, body.demographics.value)); }
      if body.lifestyle.Some? { p := p.(lifestyle := Merge(p.lifestyle, body.lifestyle.value)); }
      if body.hereditary.Some? { p := p.(hereditary := Merge(p.hereditary, body.hereditary.value)); }
      if body.medicalHistory.Some? { p := p.(medicalHistory := Merge(p.medicalHistory, body.medicalHistory.value)); }
      profiles := profiles[userId := p];
      return p;
    }
  }
}
