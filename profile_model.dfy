/** The profile document of the `DevUserProfile` collection: its record shapes,
    required fields and defaults. */
module ProfileModel {
  import opened Base
  import opened JsArray

  /** The five optional social links. */
  datatype Social = Social(
    facebook: Option<string>,
    twitter: Option<string>,
    youtube: Option<string>,
    instagram: Option<string>,
    linkedin: Option<string>)

  /** The social object with no link set (`{}`). */
  const NoSocial := Social(None, None, None, None, None)

  /** An entry of the profile's experience array (spelled `exprience` in the schema). */
  datatype Experience = Experience(
    id: ItemId,
    title: string,
    company: string,
    location: Option<string>,
    from: Date,
    to: Option<Date>,
    current: bool,
    description: Option<string>)

  /** An entry of the profile's education array. */
  datatype Education = Education(
    id: ItemId,
    school: string,
    degree: string,
    fieldOfStudy: string,
    from: Date,
    to: Option<Date>,
    current: bool,
    description: Option<string>)

  /** A profile document; `user` refers to the owning user. */
  datatype Profile = Profile(
    user: UserId,
    website: Option<string>,
    location: Option<string>,
    skills: seq<string>,
    githubUserName: Option<string>,
    company: Option<string>,
    status: string,
    bio: Option<string>,
    experience: seq<Experience>,
    education: seq<Education>,
    social: Social,
    date: Date)

  function ExperienceId(e: Experience): ItemId { e.id }
  function EducationId(e: Education): ItemId { e.id }

  /** The ids of the items in array order (`items.map((item) => item.id)`). */
  function ExperienceIds(items: seq<Experience>): seq<ItemId> {
    Map(items, ExperienceId)
  }

  function EducationIds(items: seq<Education>): seq<ItemId> {
    Map(items, EducationId)
  }

  /** A required String path rejects both a missing value and the empty string. */
  predicate ValidExperience(e: Experience) {
    e.title != "" && e.company != ""
  }

  predicate ValidEducation(e: Education) {
    e.school != "" && e.degree != "" && e.fieldOfStudy != ""
  }

  /** What saving a profile checks: `skills` and `status` are required, and so
      are the required fields of every embedded item. */
  predicate ValidProfile(p: Profile) {
    && |p.skills| > 0
    && p.status != ""
    && (forall i :: 0 <= i < |p.experience| ==> ValidExperience(p.experience[i]))
    && (forall i :: 0 <= i < |p.education| ==> ValidEducation(p.education[i]))
  }

  /** Casting a pushed experience object into the array: `current` takes its
      default when the object does not carry one. */
  function CastExperience(id: ItemId, title: string, company: string, location: Option<string>,
                          from: Date, to: Option<Date>, current: Option<bool>,
                          description: Option<string>): (e: Experience)
    ensures e.id == id && e.title == title && e.company == company && e.from == from
    ensures e.location == location && e.to == to && e.description == description
    ensures current.None? ==> !e.current
    ensures current.Some? ==> e.current == current.value
    ensures title != "" && company != "" ==> ValidExperience(e)
  {
    Experience(id, title, company, location, from, to, current.GetOr(false), description)
  }

  /** Casting a pushed education object into the array, with the same default. */
  function CastEducation(id: ItemId, school: string, degree: string, fieldOfStudy: string,
                         from: Date, to: Option<Date>, current: Option<bool>,
                         description: Option<string>): (e: Education)
    ensures e.id == id && e.school == school && e.degree == degree
    ensures e.fieldOfStudy == fieldOfStudy && e.from == from
    ensures e.to == to && e.description == description
    ensures current.None? ==> !e.current
    ensures current.Some? ==> e.current == current.value
    ensures school != "" && degree != "" && fieldOfStudy != "" ==> ValidEducation(e)
  {
    Education(id, school, degree, fieldOfStudy, from, to, current.GetOr(false), description)
  }

  /** `new Profile(fields)`: fields not given take the schema's defaults
      (no skills, empty arrays, no social link, `date` the creation time). */
  function CastProfile(user: UserId, website: Option<string>, location: Option<string>,
                       skills: Option<seq<string>>, githubUserName: Option<string>,
                       company: Option<string>, status: Option<string>, bio: Option<string>,
                       social: Social, now: Date): (p: Profile)
    ensures p.user == user && p.website == website && p.location == location
    ensures p.githubUserName == githubUserName && p.company == company && p.bio == bio
    ensures p.social == social && p.date == now
    ensures p.experience == [] && p.education == []
    ensures skills.None? ==> p.skills == []
    ensures skills.Some? ==> p.skills == skills.value
    ensures ValidProfile(p) <==> (skills.Some? && |skills.value| > 0 && Truthy(status))
  {
    Profile(user, website, location, skills.GetOr([]), githubUserName, company,
            status.GetOr(""), bio, [], [], social, now)
  }
}
