/** The profile handlers: create-or-update of the caller's profile, lookup by
    user, account deletion, and the experience and education editors. The
    principal is the user id a verified token carried. */
module ProfileRoutes {
  import opened Base
  import opened JsArray
  import opened JsString
  import opened ProfileModel
  import opened Store

  /** The body of a create-or-update request; an absent key is `None`. */
  datatype ProfileRequest = ProfileRequest(
    website: Option<string>,
    skills: Option<string>,
    status: Option<string>,
    bio: Option<string>,
    location: Option<string>,
    facebook: Option<string>,
    twitter: Option<string>,
    linkedin: Option<string>,
    instagram: Option<string>,
    youtube: Option<string>,
    company: Option<string>,
    githubUserName: Option<string>)

  /** The `profileFields` object; a key the handler did not set is `None`.
      `user` and `social` are always set. */
  datatype ProfileFields = ProfileFields(
    user: UserId,
    company: Option<string>,
    status: Option<string>,
    bio: Option<string>,
    website: Option<string>,
    location: Option<string>,
    githubUserName: Option<string>,
    skills: Option<seq<string>>,
    social: Social)

  /** The request validator: `skills` and `status` must not be empty. */
  predicate ProfileRequestOk(req: ProfileRequest) {
    Truthy(req.skills) && Truthy(req.status)
  }

  /** A field is set to the supplied value exactly when that value is truthy. */
  predicate SetIfTruthy(field: Option<string>, supplied: Option<string>) {
    (field.Some? <==> Truthy(supplied)) && (field.Some? ==> field == supplied)
  }

  /** The fields object the handler builds for `principal` from `req`. */
  function FieldsFor(principal: UserId, req: ProfileRequest): (f: ProfileFields)
    ensures f.user == principal
    ensures SetIfTruthy(f.company, req.company) && SetIfTruthy(f.status, req.status)
    ensures SetIfTruthy(f.bio, req.bio) && SetIfTruthy(f.website, req.website)
    ensures SetIfTruthy(f.location, req.location)
    ensures SetIfTruthy(f.githubUserName, req.githubUserName)
    ensures f.skills.Some? <==> Truthy(req.skills)
    ensures f.skills.Some? ==> f.skills.value == ParseSkills(req.skills.value)
    ensures SetIfTruthy(f.social.facebook, req.facebook) && SetIfTruthy(f.social.twitter, req.twitter)
    ensures SetIfTruthy(f.social.youtube, req.youtube)
    ensures SetIfTruthy(f.social.instagram, req.instagram)
    ensures SetIfTruthy(f.social.linkedin, req.linkedin)
  {
    ProfileFields(
      principal,
      KeepIfTruthy(req.company), KeepIfTruthy(req.status), KeepIfTruthy(req.bio),
      KeepIfTruthy(req.website), KeepIfTruthy(req.location), KeepIfTruthy(req.githubUserName),
      if Truthy(req.skills) then Some(ParseSkills(req.skills.value)) else None,
      SocialFor(req))
  }

  /** The social object the handler builds: a fresh object holding the truthy links. */
  function SocialFor(req: ProfileRequest): Social
  {
    Social(KeepIfTruthy(req.facebook), KeepIfTruthy(req.twitter), KeepIfTruthy(req.youtube),
           KeepIfTruthy(req.instagram), KeepIfTruthy(req.linkedin))
  }

  /** Builds the fields object one assignment at a time, as the handler does. */
  method BuildProfileFields(principal: UserId, req: ProfileRequest) returns (f: ProfileFields)
    ensures f == FieldsFor(principal, req)
  {
    f := BuildScalarFields(principal, req);
    if Truthy(req.skills) { f := f.(skills := Some(ParseSkills(req.skills.value))); }
    var social := BuildSocial(req);
    f := f.(social := social);
  }

  /** The first assignments of the builder: `user` and the truthy string fields. */
  method BuildScalarFields(principal: UserId, req: ProfileRequest) returns (f: ProfileFields)
    ensures f == FieldsFor(principal, req).(skills := None, social := NoSocial)
  {
    f := ProfileFields(principal, None, None, None, None, None, None, None, NoSocial);
    if Truthy(req.company) { f := f.(company := req.company); }
    if Truthy(req.status) { f := f.(status := req.status); }
    if Truthy(req.bio) { f := f.(bio := req.bio); }
    if Truthy(req.website) { f := f.(website := req.website); }
    if Truthy(req.location) { f := f.(location := req.location); }
    if Truthy(req.githubUserName) { f := f.(githubUserName := req.githubUserName); }
  }

  /** Builds the social object one link at a time, starting from `{}`. */
  method BuildSocial(req: ProfileRequest) returns (social: Social)
    ensures social == SocialFor(req)
  {
    social := NoSocial;
    if Truthy(req.twitter) { social := social.(twitter := req.twitter); }
    if Truthy(req.youtube) { social := social.(youtube := req.youtube); }
    if Truthy(req.facebook) { social := social.(facebook := req.facebook); }
    if Truthy(req.instagram) { social := social.(instagram := req.instagram); }
    if Truthy(req.linkedin) { social := social.(linkedin := req.linkedin); }
  }

  /** `$set: fields` on a stored profile: every key present in `f` replaces
      the stored field, every other field keeps its value. */
  function SetFields(p: Profile, f: ProfileFields): Profile
  {
    p.(user := f.user,
       company := if f.company.Some? then f.company else p.company,
       status := if f.status.Some? then f.status.value else p.status,
       bio := if f.bio.Some? then f.bio else p.bio,
       website := if f.website.Some? then f.website else p.website,
       location := if f.location.Some? then f.location else p.location,
       githubUserName := if f.githubUserName.Some? then f.githubUserName else p.githubUserName,
       skills := if f.skills.Some? then f.skills.value else p.skills,
       social := f.social)
  }

  /** `new Profile(fields)`, created at time `now`. */
  function NewProfile(f: ProfileFields, now: Date): Profile
  {
    CastProfile(f.user, f.website, f.location, f.skills, f.githubUserName, f.company,
                f.status, f.bio, f.social, now)
  }

  /** Updating the caller's profile changes only the supplied fields; omitted
      top-level fields keep their values, while every social link that was not
      supplied is cleared, since `social` is replaced as a whole. */
  lemma UpdateChangesOnlySupplied(p: Profile, principal: UserId, req: ProfileRequest)
    requires p.user == principal
    ensures var q := SetFields(p, FieldsFor(principal, req));
      && q.user == p.user && q.experience == p.experience && q.education == p.education
      && q.date == p.date
      && q.company == (if Truthy(req.company) then req.company else p.company)
      && q.bio == (if Truthy(req.bio) then req.bio else p.bio)
      && q.website == (if Truthy(req.website) then req.website else p.website)
      && q.location == (if Truthy(req.location) then req.location else p.location)
      && q.githubUserName == (if Truthy(req.githubUserName) then req.githubUserName else p.githubUserName)
      && q.status == (if Truthy(req.status) then req.status.value else p.status)
      && q.skills == (if Truthy(req.skills) then ParseSkills(req.skills.value) else p.skills)
      && (!Truthy(req.facebook) ==> q.social.facebook == None)
      && (!Truthy(req.twitter) ==> q.social.twitter == None)
      && (!Truthy(req.youtube) ==> q.social.youtube == None)
      && (!Truthy(req.instagram) ==> q.social.instagram == None)
      && (!Truthy(req.linkedin) ==> q.social.linkedin == None)
      && (Truthy(req.facebook) ==> q.social.facebook == req.facebook)
      && (Truthy(req.twitter) ==> q.social.twitter == req.twitter)
      && (Truthy(req.youtube) ==> q.social.youtube == req.youtube)
      && (Truthy(req.instagram) ==> q.social.instagram == req.instagram)
      && (Truthy(req.linkedin) ==> q.social.linkedin == req.linkedin)
      && q.social == FieldsFor(principal, req).social
  {
  }

  /** An update that passed the validator leaves a valid profile valid. */
  lemma UpdateKeepsValid(p: Profile, principal: UserId, req: ProfileRequest)
    requires ValidProfile(p) && ProfileRequestOk(req)
    ensures ValidProfile(SetFields(p, FieldsFor(principal, req)))
  {
  }

  /** A profile created from a request that passed the validator passes the
      schema's validation when `bio` is a String path. */
  lemma CreatedProfileIsValid(principal: UserId, req: ProfileRequest, now: Date)
    requires ProfileRequestOk(req)
    ensures ValidProfile(NewProfile(FieldsFor(principal, req), now))
    ensures NewProfile(FieldsFor(principal, req), now).user == principal
  {
  }

  /** POST /profile: creates the caller's profile, or updates it when one exists. */
  method UpsertProfile(db: Database, principal: UserId, req: ProfileRequest, now: Date)
    returns (r: Result<Profile>)
    requires db.Valid()
    modifies db
    ensures db.Valid()
    ensures db.users == old(db.users) && db.posts == old(db.posts)
    ensures db.nextItemId == old(db.nextItemId) && db.nextPostId == old(db.nextPostId)
    ensures !ProfileRequestOk(req) ==> r == Err(ValidationFailed) && db.profiles == old(db.profiles)
    ensures ProfileRequestOk(req) ==> r.Ok? && db.profiles == old(db.profiles)[principal := r.value]
    ensures ProfileRequestOk(req) && principal in old(db.profiles) ==>
      r.value == SetFields(old(db.profiles)[principal], FieldsFor(principal, req))
    ensures ProfileRequestOk(req) && principal !in old(db.profiles) ==>
      r.value == NewProfile(FieldsFor(principal, req), now)
  {
    if !ProfileRequestOk(req) {
      return Err(ValidationFailed);
    }
    var fields := BuildProfileFields(principal, req);
    var p: Profile;
    if principal in db.profiles {
      p := SetFields(db.profiles[principal], fields);
      UpdateKeepsValid(db.profiles[principal], principal, req);
    } else {
      p := NewProfile(fields, now);
      CreatedProfileIsValid(principal, req, now);
    }
    db.profiles := db.profiles[principal := p];
    r := Ok(p);
  }

  /** Schema validation of `new Profile(fields)` with the schema as written:
      `bio` is declared `{ tye: String }`, which Mongoose reads as a nested
      object holding a `tye` string, so a string stored at `bio` fails its
      cast and invalidates the document. */
  predicate ValidAsWritten(f: ProfileFields, now: Date) {
    ValidProfile(NewProfile(f, now)) && f.bio.None?
  }

  /** With the schema as written, a validated create saves exactly when the
      request carries no bio, while with `bio` a String path it always saves. */
  lemma BioBreaksCreate(principal: UserId, req: ProfileRequest, now: Date)
    requires ProfileRequestOk(req)
    ensures ValidAsWritten(FieldsFor(principal, req), now) <==> !Truthy(req.bio)
    ensures ValidProfile(NewProfile(FieldsFor(principal, req), now))
  {
    CreatedProfileIsValid(principal, req, now);
  }

  /** POST /profile with the schema as written: creating a profile with a
      truthy bio is rejected by `save()` and answered with a server error;
      every other request behaves as in `UpsertProfile`. */
  method UpsertProfileAsWritten(db: Database, principal: UserId, req: ProfileRequest, now: Date)
    returns (r: Result<Profile>)
    requires db.Valid()
    modifies db
    ensures db.Valid()
    ensures db.users == old(db.users) && db.posts == old(db.posts)
    ensures db.nextItemId == old(db.nextItemId) && db.nextPostId == old(db.nextPostId)
    ensures !ProfileRequestOk(req) ==> r == Err(ValidationFailed) && db.profiles == old(db.profiles)
    ensures ProfileRequestOk(req) && principal !in old(db.profiles) && Truthy(req.bio) ==>
      r == Err(ServerError) && db.profiles == old(db.profiles)
    ensures ProfileRequestOk(req) && principal in old(db.profiles) ==>
      && r == Ok(SetFields(old(db.profiles)[principal], FieldsFor(principal, req)))
      && db.profiles == old(db.profiles)[principal := r.value]
    ensures ProfileRequestOk(req) && principal !in old(db.profiles) && !Truthy(req.bio) ==>
      && r == Ok(NewProfile(FieldsFor(principal, req), now))
      && db.profiles == old(db.profiles)[principal := r.value]
  {
    if ProfileRequestOk(req) && principal !in db.profiles {
      var fields := BuildProfileFields(principal, req);
      BioBreaksCreate(principal, req, now);
      if !ValidAsWritten(fields, now) {
        return Err(ServerError);
      }
    }
    r := UpsertProfile(db, principal, req, now);
  }

  /** GET /profile/user/:user_id. */
  function GetProfileByUser(profiles: map<UserId, Profile>, u: UserId): (r: Result<Profile>)
    ensures r.Ok? <==> u in profiles
    ensures r.Ok? ==> r.value == profiles[u]
    ensures r.Err? ==> r.error == NotFound
  {
    if u in profiles then Ok(profiles[u]) else Err(NotFound)
  }

  /** DELETE /profile: removes the caller's profile and account; their posts
      (and their likes on other posts) stay. */
  method DeleteAccount(db: Database, principal: UserId)
    requires db.Valid()
    modifies db
    ensures db.Valid()
    ensures db.profiles == old(db.profiles) - {principal}
    ensures db.users == old(db.users) - {principal}
    ensures db.posts == old(db.posts)
    ensures db.nextItemId == old(db.nextItemId) && db.nextPostId == old(db.nextPostId)
  {
    db.profiles := db.profiles - {principal};
    db.users := db.users - {principal};
  }

  /** The body of an add-experience request. */
  datatype ExperienceRequest = ExperienceRequest(
    title: Option<string>,
    company: Option<string>,
    from: Option<Date>,
    to: Option<Date>,
    location: Option<string>,
    description: Option<string>)

  /** The validator: `title`, `company` and `from` must not be empty. */
  predicate ExperienceRequestOk(req: ExperienceRequest) {
    Truthy(req.title) && Truthy(req.company) && req.from.Some?
  }

  /** The pushed `newExp` object, cast with the new item id; it carries no
      `current`, so the schema default applies. */
  function NewExperience(id: ItemId, req: ExperienceRequest): (e: Experience)
    requires ExperienceRequestOk(req)
    ensures e.id == id && !e.current && ValidExperience(e)
    ensures Some(e.title) == req.title && Some(e.company) == req.company && Some(e.from) == req.from
    ensures e.location == req.location && e.to == req.to && e.description == req.description
  {
    CastExperience(id, req.title.value, req.company.value, req.location, req.from.value,
                   req.to, None, req.description)
  }

  /** The experience array after `splice(indexOf(id), 1)`: the first item
      with that id goes; when there is none, the last item goes. */
  function RemoveExperienceById(items: seq<Experience>, id: ItemId): (r: seq<Experience>)
    ensures id in ExperienceIds(items) ==>
      var k := IndexOf(ExperienceIds(items), id);
      && items[k].id == id
      && (forall j :: 0 <= j < k ==> items[j].id != id)
      && r == items[..k] + items[k + 1..]
    ensures id !in ExperienceIds(items) && items != [] ==> r == items[..|items| - 1]
    ensures id !in ExperienceIds(items) && items == [] ==> r == []
  {
    var ids := ExperienceIds(items);
    KeyIndexIsFirst(items, ExperienceId, id);
    Splice1(items, IndexOf(ids, id))
  }

  /** Removing an experience item keeps the array's invariant. */
  lemma RemoveExperienceKeeps(owner: UserId, p: Profile, id: ItemId, nextItemId: nat)
    requires ProfileInvariant(owner, p, nextItemId)
    ensures ProfileInvariant(owner, p.(experience := RemoveExperienceById(p.experience, id)), nextItemId)
  {
    SpliceKeeps(p.experience, ExperienceId, IndexOf(ExperienceIds(p.experience), id));
  }

  /** PUT /profile/experience: appends a new item to the caller's profile. */
  method AddExperience(db: Database, principal: UserId, req: ExperienceRequest)
    returns (r: Result<Profile>)
    requires db.Valid()
    modifies db
    ensures db.Valid()
    ensures db.users == old(db.users) && db.posts == old(db.posts) && db.nextPostId == old(db.nextPostId)
    ensures !ExperienceRequestOk(req) ==>
      r == Err(ValidationFailed) && db.profiles == old(db.profiles) && db.nextItemId == old(db.nextItemId)
    ensures ExperienceRequestOk(req) && principal !in old(db.profiles) ==>
      r == Err(ServerError) && db.profiles == old(db.profiles) && db.nextItemId == old(db.nextItemId)
    ensures ExperienceRequestOk(req) && principal in old(db.profiles) ==>
      var p := old(db.profiles)[principal];
      var e := NewExperience(old(db.nextItemId), req);
      && r == Ok(p.(experience := p.experience + [e]))
      && db.profiles == old(db.profiles)[principal := r.value]
      && db.nextItemId == old(db.nextItemId) + 1
      && (forall u :: u in old(db.profiles) ==> e.id !in ExperienceIds(old(db.profiles)[u].experience))
  {
    if !ExperienceRequestOk(req) {
      return Err(ValidationFailed);
    }
    if principal !in db.profiles {
      return Err(ServerError);
    }
    var p := db.profiles[principal];
    var e := NewExperience(db.nextItemId, req);
    DistinctByAppend(p.experience, ExperienceId, e);
    p := p.(experience := p.experience + [e]);
    db.profiles := db.profiles[principal := p];
    db.nextItemId := db.nextItemId + 1;
    r := Ok(p);
  }

  /** DELETE /profile/exprience/:exp_id. */
  method RemoveExperience(db: Database, principal: UserId, expId: ItemId)
    returns (r: Result<Profile>)
    requires db.Valid()
    modifies db
    ensures db.Valid()
    ensures db.users == old(db.users) && db.posts == old(db.posts)
    ensures db.nextItemId == old(db.nextItemId) && db.nextPostId == old(db.nextPostId)
    ensures principal !in old(db.profiles) ==> r == Err(ServerError) && db.profiles == old(db.profiles)
    ensures principal in old(db.profiles) ==>
      var p := old(db.profiles)[principal];
      && r == Ok(p.(experience := RemoveExperienceById(p.experience, expId)))
      && db.profiles == old(db.profiles)[principal := r.value]
  {
    if principal !in db.profiles {
      return Err(ServerError);
    }
    var p := db.profiles[principal];
    RemoveExperienceKeeps(principal, p, expId, db.nextItemId);
    p := p.(experience := RemoveExperienceById(p.experience, expId));
    db.profiles := db.profiles[principal := p];
    r := Ok(p);
  }

  /** The body of an add-education request. */
  datatype EducationRequest = EducationRequest(
    school: Option<string>,
    degree: Option<string>,
    fieldOfStudy: Option<string>,
    from: Option<Date>,
    to: Option<Date>,
    current: Option<bool>,
    description: Option<string>)

  /** The validator: `school`, `degree`, `fieldOfstudy` and `from` must not be empty. */
  predicate EducationRequestOk(req: EducationRequest) {
    Truthy(req.school) && Truthy(req.degree) && Truthy(req.fieldOfStudy) && req.from.Some?
  }

  /** The pushed `newEdu` object, cast with the new item id; `current` falls
      back to the schema default when the request leaves it out. */
  function NewEducation(id: ItemId, req: EducationRequest): (e: Education)
    requires EducationRequestOk(req)
    ensures e.id == id && ValidEducation(e)
    ensures e.current == req.current.GetOr(false)
    ensures Some(e.school) == req.school && Some(e.degree) == req.degree
    ensures Some(e.fieldOfStudy) == req.fieldOfStudy && Some(e.from) == req.from
    ensures e.to == req.to && e.description == req.description
  {
    CastEducation(id, req.school.value, req.degree.value, req.fieldOfStudy.value,
                  req.from.value, req.to, req.current, req.description)
  }

  /** The education array after `splice(indexOf(id), 1)`. */
  function RemoveEducationById(items: seq<Education>, id: ItemId): (r: seq<Education>)
    ensures id in EducationIds(items) ==>
      var k := IndexOf(EducationIds(items), id);
      && items[k].id == id
      && (forall j :: 0 <= j < k ==> items[j].id != id)
      && r == items[..k] + items[k + 1..]
    ensures id !in EducationIds(items) && items != [] ==> r == items[..|items| - 1]
    ensures id !in EducationIds(items) && items == [] ==> r == []
  {
    var ids := EducationIds(items);
    KeyIndexIsFirst(items, EducationId, id);
    Splice1(items, IndexOf(ids, id))
  }

  /** Removing an education item keeps the array's invariant. */
  lemma RemoveEducationKeeps(owner: UserId, p: Profile, id: ItemId, nextItemId: nat)
    requires ProfileInvariant(owner, p, nextItemId)
    ensures ProfileInvariant(owner, p.(education := RemoveEducationById(p.education, id)), nextItemId)
  {
    SpliceKeeps(p.education, EducationId, IndexOf(EducationIds(p.education), id));
  }

  /** PUT /profile/education: appends a new item to the caller's profile. */
  method AddEducation(db: Database, principal: UserId, req: EducationRequest)
    returns (r: Result<Profile>)
    requires db.Valid()
    modifies db
    ensures db.Valid()
    ensures db.users == old(db.users) && db.posts == old(db.posts) && db.nextPostId == old(db.nextPostId)
    ensures !EducationRequestOk(req) ==>
      r == Err(ValidationFailed) && db.profiles == old(db.profiles) && db.nextItemId == old(db.nextItemId)
    ensures EducationRequestOk(req) && principal !in old(db.profiles) ==>
      r == Err(ServerError) && db.profiles == old(db.profiles) && db.nextItemId == old(db.nextItemId)
    ensures EducationRequestOk(req) && principal in old(db.profiles) ==>
      var p := old(db.profiles)[principal];
      var e := NewEducation(old(db.nextItemId), req);
      && r == Ok(p.(education := p.education + [e]))
      && db.profiles == old(db.profiles)[principal := r.value]
      && db.nextItemId == old(db.nextItemId) + 1
      && (forall u :: u in old(db.profiles) ==> e.id !in EducationIds(old(db.profiles)[u].education))
  {
    if !EducationRequestOk(req) {
      return Err(ValidationFailed);
    }
    if principal !in db.profiles {
      return Err(ServerError);
    }
    var p := db.profiles[principal];
    var e := NewEducation(db.nextItemId, req);
    DistinctByAppend(p.education, EducationId, e);
    p := p.(education := p.education + [e]);
    db.profiles := db.profiles[principal := p];
    db.nextItemId := db.nextItemId + 1;
    r := Ok(p);
  }

  /** DELETE /profile/education/:edu_id. */
  method RemoveEducation(db: Database, principal: UserId, eduId: ItemId)
    returns (r: Result<Profile>)
    requires db.Valid()
    modifies db
    ensures db.Valid()
    ensures db.users == old(db.users) && db.posts == old(db.posts)
    ensures db.nextItemId == old(db.nextItemId) && db.nextPostId == old(db.nextPostId)
    ensures principal !in old(db.profiles) ==> r == Err(ServerError) && db.profiles == old(db.profiles)
    ensures principal in old(db.profiles) ==>
      var p := old(db.profiles)[principal];
      && r == Ok(p.(education := RemoveEducationById(p.education, eduId)))
      && db.profiles == old(db.profiles)[principal := r.value]
  {
    if principal !in db.profiles {
      return Err(ServerError);
    }
    var p := db.profiles[principal];
    RemoveEducationKeeps(principal, p, eduId, db.nextItemId);
    p := p.(education := RemoveEducationById(p.education, eduId));
    db.profiles := db.profiles[principal := p];
    r := Ok(p);
  }
}
