/** The post store behind `createPost`. Its implementation is not part of this
    model, so the store promises only what every caller relies on: a post
    whose slug is new is recorded under that slug; nothing is promised for a
    slug already stored. */
module PostStore {

  /** A post as handed to `createPost`: the three submitted strings, unchanged. */
  datatype Post = Post(title: string, slug: string, markdown: string)

  class Store {
    /** The persisted posts, keyed by slug. */
    var posts: map<string, Post>
    /** Every post ever passed to `CreatePost`, in call order. It exists only
        so that contracts can say how often, and with what, the store was
        called. */
    ghost var created: seq<Post>

    constructor ()
      ensures posts == map[] && created == []
    {
      posts := map[];
      created := [];
    }

    /** `createPost({ title, slug, markdown })`: records a post whose slug is
        new under that slug. Nothing is promised when the slug is already
        stored, nor about the other entries. */
    method CreatePost(p: Post)
      modifies this
      ensures old(p.slug !in posts) ==> p.slug in posts && posts[p.slug] == p
      ensures created == old(created) + [p]
    {
      posts := posts[p.slug := p];
      created := created + [p];
    }
  }
}
