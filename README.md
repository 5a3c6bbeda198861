# Create-post action of the Remix blog admin

This project models the server `action` of the admin "new post" route of a
small Remix blog. An admin submits a form with `title`, `slug` and `markdown`.
The action builds an error record with one message or null per field. If any
field is missing or empty, it answers with that record and writes nothing.
Otherwise it calls `createPost` with exactly the submitted strings and
redirects to `/posts/admin/<slug>`.

Modules:
- `Wrappers`: the `Option` type. `None` stands for a field the form did not
  send and for a null error entry.
- `PostStore`: the post store behind `createPost`, a class holding a
  `map<string, Post>` keyed by slug. Its source (`app/models/post.server`) is
  not part of this model. The store therefore promises only that a post with a
  new slug is recorded under that slug afterwards. A ghost log `created` records every
  call, so contracts can say how often the store was called and with what.
- `NewPostRoute`: the validation (`Validate`, `HasErrors`) as pure functions,
  and `Action` as a method that changes the store.

JavaScript's `!x` on a string-or-null is modelled by `Truthy`: null and `""`
are falsy, and every other string is truthy, whitespace included. Nothing is
trimmed.

## Model

| member | source | states |
|---|---|---|
| NewPostRoute.Validate | app/routes/posts.admin.new.tsx:16-20 | each field's entry is a message exactly when that field is missing or `""`; the messages are "Title is required", "Slug is required" and "Markdown is required" (via `Truthy` and `Check`) |
| NewPostRoute.ErrorsExactlyForMissingFields | app/routes/posts.admin.new.tsx:16-20 | no short-circuit: the set of fields with a message equals the set of missing or empty fields |
| NewPostRoute.FieldIndependence | app/routes/posts.admin.new.tsx:16-20 | each field's error depends on that field alone |
| NewPostRoute.WhitespaceTitleIsPresent | app/routes/posts.admin.new.tsx:17 | a non-empty title made only of spaces, tabs or line breaks yields no title error, because nothing is trimmed |
| NewPostRoute.AnyTruthy | app/routes/posts.admin.new.tsx:21 | `some((e) => e)` is true exactly when some entry is truthy |
| NewPostRoute.HasErrors | app/routes/posts.admin.new.tsx:21 | `Object.values(errors).some((e) => e)` holds exactly when the title, slug or markdown entry is a non-empty message (via `Values` and `AnyTruthy`) |
| NewPostRoute.HasErrorsIffSomeMissing | app/routes/posts.admin.new.tsx:21 | `hasErrors` holds exactly when at least one field is missing or empty |
| NewPostRoute.CompleteFormPasses | app/routes/posts.admin.new.tsx:16-21 | three non-empty fields give no errors |
| NewPostRoute.PassingFormIsComplete | app/routes/posts.admin.new.tsx:27-29 | for a form of text fields, after validation passes all three fields are present non-empty strings, so the `invariant` checks cannot fail |
| NewPostRoute.RedirectPath | app/routes/posts.admin.new.tsx:32 | the location is "/posts/admin/" followed by the slug as submitted |
| NewPostRoute.RedirectPathInjective | app/routes/posts.admin.new.tsx:32 | distinct slugs redirect to distinct locations |
| NewPostRoute.Action | app/routes/posts.admin.new.tsx:8-33 | it answers with the error record exactly when `hasErrors` holds, and then the store is unchanged; otherwise `createPost` is called exactly once with the submitted title, slug and markdown, a post whose slug was not stored before is then stored under it, and the answer redirects to `RedirectPath(slug)` |
| PostStore.Store.CreatePost | app/routes/posts.admin.new.tsx:31 | the call is logged once; if `p.slug` was not stored before, `p` is stored under it afterwards |

## Left out

- The one-second `setTimeout` delay before parsing (app/routes/posts.admin.new.tsx:9). It only simulates latency.
- Parsing of `request.formData()`. The fields are inputs, and the `json` and `redirect` HTTP responses are modelled by the `Response` datatype.
- NewPostRoute.PassingFormIsComplete: holds for text fields only. `formData.get` may return a File, which is truthy, so it passes validation; then `invariant(typeof … === "string")` (app/routes/posts.admin.new.tsx:27-29) throws. File entries and this error path are not modelled.
- PostStore.Store.CreatePost: promises nothing when the slug is already stored, nor about the other entries. The store's source (`app/models/post.server`) is not part of this model, so no collision or persistence policy is assumed.
- NewPostRoute.Action: assumes `createPost` always returns. If the store rejected the call, for example on a slug collision, the source action would throw instead of redirecting. That rejection path is not modelled, so for an already-stored slug the model still redirects but promises nothing about the stored post.
- The `NewPost` component: the form markup, `useActionData`, the disabled button while submitting, and the preview of the in-flight submission.
- Markdown rendering (`app/conponents/post.tsx`), the admin list loader, the admin index page and the edit/delete route. They are outside this model.
- Concurrent submissions and asynchronous completion of `createPost`. Each action runs as one sequential step.
