/** The REST client (src/lib/api.ts). The named exports (`projectsApi`,
    `eventsApi`, ...) wrap the axios instance; the default export is the
    bare instance, whose callable members are axios's request methods. A
    call through the default export to any other name throws a
    `TypeError` before any request is made. */
module Api {
  import opened Common

  /** The request methods of an axios instance. */
  const InstanceMethods: set<string> :=
    {"request", "get", "delete", "head", "options", "post", "put", "patch",
     "getUri", "postForm", "putForm", "patchForm"}

  /** `api.name(...)` on the default export: the server's outcome when the
      instance has that method, a thrown `TypeError` otherwise. */
  function Invoke(name: string, server: Outcome): (r: Outcome)
    ensures name !in InstanceMethods ==> r == Threw
    ensures name in InstanceMethods ==> r == server
  {
    if name in InstanceMethods then server else Threw
  }

  /** The names the blog and message editors call on the default export
      are none of the instance's methods. */
  lemma EditorCallsMissing()
    ensures "getBlogPosts" !in InstanceMethods && "createBlogPost" !in InstanceMethods
    ensures "updateBlogPost" !in InstanceMethods && "deleteBlogPost" !in InstanceMethods
    ensures "getContactMessages" !in InstanceMethods && "updateContactMessage" !in InstanceMethods
    ensures "deleteContactMessage" !in InstanceMethods
  {
  }
}
