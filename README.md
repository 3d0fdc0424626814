# DevConnect profile and post handlers in Dafny

This project models the server core of DevConnect, a small developer social
network built on Express and Mongoose. It covers:

- the token gate in front of the private routes;
- the profile handlers: create-or-update the caller's profile (the fields
  builder, with the comma-separated skills list split and trimmed), look up a
  profile by user, delete the caller's profile and account, and add or remove
  items in the `experience` and `education` arrays;
- the post handlers: create a post, list all posts newest first, delete a
  post (owner only), like and unlike a post;
- the profile schema: which fields exist, which are required, and the defaults
  applied when a document is created.

The document store is a class `Store.Database`. Its fields are the users (by
id), the profiles (by owner id), the posts (in insertion order), and two
counters that stand for ObjectId generation. Each handler is a method on the
store. It returns `Ok` with the response body or `Err` with the failure the
handler answers with. Its `ensures` state the new store and the store
invariant `Valid()`. The invariant says:

- every profile is filed under its owner and passes schema validation;
- item ids and post ids are distinct and were issued by the counters;
- no user liked a post twice.

The JavaScript built-ins the handlers rely on are modelled with their
ECMAScript meaning:

- `indexOf` returns the first occurrence, or -1.
- `splice(start, 1)` counts a negative start from the end. So `splice(-1, 1)`
  removes the last element.
- `split(',')` returns `[""]` for the empty string.
- `trim` removes the ECMAScript white-space and line-terminator characters.
- Truthiness: a string is truthy when it is present and non-empty.

Modules:

| file | module | content |
|---|---|---|
| base.dfy | Base | Option, Result, the error kinds, truthiness |
| js_array.dfy | JsArray | `indexOf`, `splice(start, 1)`, distinctness by key |
| js_string.dfy | JsString | `split`, `join`, `trim`, the skills parser |
| profile_model.dfy | ProfileModel | the profile schema: shapes, validation, defaults |
| post_model.dfy | PostModel | the post document, like/unlike edits, newest-first order |
| store.dfy | Store | the document store and its invariant |
| auth.dfy | Auth | the `x-auth-token` check |
| profile_routes.dfy | ProfileRoutes | the `/profile` handlers |
| post_routes.dfy | PostRoutes | the `/posts` handlers |

## Model

| member | source | states |
|---|---|---|
| Auth.Authenticate | middleware/auth.js:5-21 | A missing or empty token gives "no token". A token that does not verify gives "token is not valid". Otherwise the principal is the user id in the verified payload, and these three cases are exclusive. |
| Base.KeepIfTruthy | routes/profile.js:68-73 | A supplied value is kept exactly when it is truthy, and then unchanged. |
| JsArray.IndexOf | routes/profile.js:231-233 | The result is -1 exactly when the element is absent. Otherwise it is a position holding the element, with no earlier occurrence. |
| JsArray.Map | routes/profile.js:231-232 | `map(f)`: the result has the same length, and entry i is `f` of element i. The handlers use it for `map((item) => item.id)` and `map((like) => like.user.toString())`. |
| JsArray.Splice1 | routes/profile.js:235 | `splice(start, 1)`: an index inside the array removes that element. -1 removes the last element and leaves an empty array empty. A start past the end changes nothing. |
| JsArray.SpliceAtIndexOfRemovesFirst | routes/posts.js:153-157 | Splicing at `indexOf(x)` of an array containing `x` equals an independent "remove the first x" definition. |
| JsArray.PushThenSpliceRestores | routes/posts.js:123-157 | Pushing an absent element and then splicing at its `indexOf` gives back the original array. |
| JsString.Split | routes/profile.js:75 | `split` always yields at least one piece. |
| JsString.SplitCount | routes/profile.js:75 | `split(sep)` yields one more piece than there are separators in the string. |
| JsString.SplitPiecesLackSeparator | routes/profile.js:75 | No piece of `split(sep)` contains the separator. |
| JsString.JoinSplit | routes/profile.js:75 | Joining the pieces of `split(sep)` with `sep` gives back the original string. |
| JsString.TrimStart | routes/profile.js:75 | The result is a suffix of the input. Everything dropped is white space, and the result does not start with white space. |
| JsString.TrimEnd | routes/profile.js:75 | The result is a prefix of the input. Everything dropped is white space, and the result does not end with white space. |
| JsString.Trim | routes/profile.js:75 | A non-empty trimmed string neither starts nor ends with white space. |
| JsString.TrimKeepsMiddle | routes/profile.js:75 | The trimmed string is a contiguous slice of the input, and only white space lies outside it. |
| JsString.TrimIdempotent | routes/profile.js:75 | Trimming twice is trimming once. |
| JsString.ParseSkills | routes/profile.js:74-76 | There is one skill per comma-separated piece: the count is the number of commas plus one. Skill i is piece i trimmed. No skill contains a comma or has leading or trailing white space. |
| ProfileModel.CastExperience | models/Profile.js:39-72 | An experience item keeps its given fields, and `current` defaults to false. It passes validation exactly when title and company are non-empty. |
| ProfileModel.CastEducation | models/Profile.js:74-109 | An education item keeps its given fields, and `current` defaults to false. It passes validation exactly when school, degree and fieldOfStudy are non-empty. |
| ProfileModel.CastProfile | models/Profile.js:3-137 | A new profile takes the supplied fields, with empty experience and education arrays and the creation date. It passes validation exactly when skills is non-empty and status is truthy. |
| PostModel.LikesByNonEmpty | routes/posts.js:116-119 | The filter the like and unlike guards test is non-empty exactly when the principal is among the likers. |
| PostModel.AtMostOneLikeEach | routes/posts.js:116-123 | With unique likers, the filter holds at most one like per user. |
| PostModel.Liked | routes/posts.js:123 | Liking appends one like by the principal and keeps the existing likes in order. |
| PostModel.UnlikeRemovesFirst | routes/posts.js:153-157 | When the principal has liked the post, unliking removes exactly their first like, keeps the others in order, and shortens the array by one. |
| PostModel.LikeKeepsUnique | routes/posts.js:116-123 | A like the guard lets through keeps "one like per user". |
| PostModel.UnlikeKeepsUnique | routes/posts.js:144-157 | Unliking keeps "one like per user" and adds no like. |
| PostModel.LikeThenUnlikeRestores | routes/posts.js:116-157 | Like followed by unlike by the same user restores the original likes. |
| PostModel.LikedOnce | routes/posts.js:116-123 | After a like, the principal has exactly one like on the post, so a second like is refused. |
| PostModel.InsertNewestFirst | routes/posts.js:48 | Inserting into a newest-first listing keeps it newest first and adds exactly that post. |
| PostModel.SortNewestFirst | routes/posts.js:48 | `sort({ date: -1 })`: the result is ordered by date, newest first, and is a permutation of the input. |
| ProfileRoutes.FieldsFor | routes/profile.js:65-84 | The fields object: `user` is the principal. Each top-level and social field is set exactly when the request value is truthy, and then to that value. skills is the parsed skills list. |
| ProfileRoutes.BuildProfileFields | routes/profile.js:65-84 | The builder's sequence of conditional assignments produces exactly `FieldsFor`. |
| ProfileRoutes.BuildScalarFields | routes/profile.js:65-73 | The assignments of `user` and the truthy string fields produce the corresponding part of `FieldsFor`. |
| ProfileRoutes.BuildSocial | routes/profile.js:79-84 | Starting from `{}`, the conditional link assignments produce the social object of `FieldsFor`. |
| ProfileRoutes.UpdateChangesOnlySupplied | routes/profile.js:79-94 | `$set` with the built fields: each truthy supplied field takes the supplied value (skills parsed). Every other top-level field, the experience and education arrays and the date keep their values. `social` is replaced as a whole, so unsupplied links are cleared. |
| ProfileRoutes.UpdateKeepsValid | routes/profile.js:87-94 | An update that passed the request validator leaves a valid profile valid. |
| ProfileRoutes.CreatedProfileIsValid | routes/profile.js:99-104 | A profile created from a validated request passes the schema's validation with `bio` taken as a String path, and it belongs to the principal. |
| ProfileRoutes.BioBreaksCreate | models/Profile.js:35-37 | With `bio` declared `{ tye: String }`, a validated create passes validation exactly when the request carries no truthy bio. With `bio` a String path it always passes. |
| ProfileRoutes.UpsertProfileAsWritten | routes/profile.js:99-107 | With the schema as written, creating a profile with a truthy bio fails at `save()`: the answer is a server error and no profile is stored. Every other request behaves as in `UpsertProfile`. |
| ProfileRoutes.UpsertProfile | routes/profile.js:33-110 | An invalid request is refused and nothing changes. Otherwise an existing profile is updated with `$set`, or a new one is created. Only the principal's profile entry changes, and the store invariant is kept. |
| ProfileRoutes.GetProfileByUser | routes/profile.js:135-153 | The result is found exactly when the user has a profile, and is that profile. Otherwise it is "no profile found". |
| ProfileRoutes.DeleteAccount | routes/profile.js:159-175 | The principal's profile and account are removed, posts are untouched, and the invariant is kept. |
| ProfileRoutes.NewExperience | routes/profile.js:197-206 | The pushed item carries the request's fields and the new id, with `current` false. It passes validation. |
| ProfileRoutes.RemoveExperienceById | routes/profile.js:229-235 | If the id is present, its first item is removed and the rest keep their order. If it is absent, the last item is removed, and an empty array stays empty. |
| ProfileRoutes.RemoveExperienceKeeps | routes/profile.js:229-237 | Removing an experience item keeps the profile invariant: valid, ids distinct and issued. |
| ProfileRoutes.AddExperience | routes/profile.js:181-221 | A validation failure, or a caller without a profile (a server error), changes nothing. Otherwise the new item is appended to the caller's experience with an id no stored item has. |
| ProfileRoutes.RemoveExperience | routes/profile.js:227-244 | A caller without a profile gets a server error. Otherwise the caller's experience becomes the array after `RemoveExperienceById`, and the invariant is kept. |
| ProfileRoutes.NewEducation | routes/profile.js:267-285 | The pushed item carries the request's fields and the new id, with `current` defaulting to false. It passes validation. |
| ProfileRoutes.RemoveEducationById | routes/profile.js:310-314 | If the id is present, its first item is removed and the rest keep their order. If it is absent, the last item is removed, and an empty array stays empty. |
| ProfileRoutes.RemoveEducationKeeps | routes/profile.js:308-316 | Removing an education item keeps the profile invariant. |
| ProfileRoutes.AddEducation | routes/profile.js:250-300 | A validation failure, or a caller without a profile, changes nothing. Otherwise the new item is appended to the caller's education with an id no stored item has. |
| ProfileRoutes.RemoveEducation | routes/profile.js:306-323 | A caller without a profile gets a server error. Otherwise the caller's education becomes the array after `RemoveEducationById`, and the invariant is kept. |
| PostRoutes.FindPost | routes/posts.js:84-88 | `findById`: the result is -1 exactly when no post has that id, and an undefined key finds nothing. Otherwise it is the first position whose id is the key. |
| PostRoutes.ReplacePostKeepsValid | routes/posts.js:123-125 | Saving a post with the same id and unique likers keeps the post invariant. |
| PostRoutes.RemovePostKeepsValid | routes/posts.js:94 | Removing a post keeps the post invariant. |
| PostRoutes.CreatePost | routes/posts.js:13-40 | Empty text is refused, and so is a missing author (a server error). Otherwise a post with the author's name and avatar, no likes, the current date and a fresh id is appended. |
| PostRoutes.ListPosts | routes/posts.js:46-54 | The listing is newest first and is a permutation of the stored posts. |
| PostRoutes.DeleteByKey | routes/posts.js:84-96 | Lookup by key: not found, not the owner (refused, nothing changes), or the owner's post is removed. |
| PostRoutes.DeletePostAsWritten | routes/posts.js:82-104 | As written, every delete request answers "Post not Found" and leaves the store unchanged. |
| PostRoutes.OwnerDeleteMissesPost | routes/posts.js:82-84 | For a store holding post 7, the handler's key finds nothing, while the declared route parameter finds the post. |
| PostRoutes.DeletePost | routes/posts.js:86-96 | With the route parameter read correctly: an absent post is "not found". A post of another user is refused and the store is unchanged. The owner's post is removed, and only that post. |
| PostRoutes.LikePost | routes/posts.js:110-132 | A missing post is a server error. A post the principal already liked is refused. Otherwise one like by the principal is appended, and the response is the new likes array. |
| PostRoutes.UnlikePost | routes/posts.js:138-166 | A missing post is a server error. A post the principal has not liked is refused. Otherwise the principal's like is spliced out, and the response is the new likes array. |

## Left out

- Registration and login (routes/users.js) and the application setup (app.js) are not part of this model. Their behaviour is password hashing, gravatar lookup, token signing and server wiring.
- Signature and expiry checking of the token happen in the token library. `Auth.Authenticate` takes the verifier as a parameter.
- GET /profile/me is not modelled: it is a plain lookup by owner, and it answers through `req.json` instead of `res.json`, a response-plumbing slip with no logic to model.
- GET /profile (list all profiles) and GET /posts/:id (get one post) are not modelled: they are plain reads with no logic beyond the store lookup.
- GET /profile/github/:username is not modelled: it is a proxy to an external HTTP service.
- `populate('user', ...)` joins are left out: the model returns the stored document itself.
- Malformed ObjectIds are left out. So is the `err.kind == 'ObjectId'` branch they reach: ids here are numbers, so no id is malformed.
- Exact HTTP status codes and message texts are folded into the `Error` kinds.
- Concurrency between requests is left out: each handler runs to completion on the store. The read-modify-save races of the source are not modelled.
- Date casting is left out: dates are integers, and "now" is a parameter.
- `ProfileRoutes.UpsertProfileAsWritten`: with `bio` declared `{ tye: String }`, the update branch with a truthy bio is modelled as succeeding. How Mongoose casts a `$set` of a string onto the nested `bio` path is not modelled.
- The schema spells the experience array `exprience` and the education field `fieldOfstudy`. The model names them `experience` and `fieldOfStudy`.
- The experience-delete route is mounted at `/exprience/:exp_id`. Routing is not modelled, so `ProfileRoutes.RemoveExperience` is the handler whatever path reaches it.
- models/Post.js and models/User.js are not part of this model. The post shape follows what the post handlers read and write: `likes` starts empty and `date` is the creation time.
- `ProfileModel.CastProfile`: a required array is taken to fail validation when empty. This is the older Mongoose rule; newer versions accept an empty array.
- `PostRoutes.ListPosts`: the order of posts with equal dates is not stated; only the order by date and the contents are.
- `ProfileRoutes.UpsertProfile`: the update runs no schema validators. Validity of the result is proved rather than checked.

## Findings

| source | as written | input that shows it | evidently intended | confidence | as-written member | corrected member |
|---|---|---|---|---|---|---|
| routes/posts.js:84 | The delete handler reads `req.params.Post_id`, but the route is declared with `:post_id`, so the lookup key is undefined and `findById` matches no post | The owner of post 7 sends DELETE /posts/7: the answer is 404 "Post not Found" and the post stays | Look the post up by `req.params.post_id`, so the owner can delete it and others are refused | high (not executed) | PostRoutes.DeletePostAsWritten | PostRoutes.DeletePost |
| models/Profile.js:35-37 | `bio` is declared `{ tye: String }`, which Mongoose reads as a nested object with a `tye` string, so the string the handler stores at `bio` fails its cast and `save()` rejects | POST /profile with skills "js", status "dev" and bio "hi" from a user without a profile: the answer is 500 and no profile is created | Declare `bio: { type: String }`, so a profile with a bio is created | medium (not executed; depends on Mongoose's casting of nested paths) | ProfileRoutes.UpsertProfileAsWritten | ProfileRoutes.UpsertProfile |
