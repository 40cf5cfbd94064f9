/** The page head (src/components/SEOHelmet.tsx): the full title with the
    brand appended when it is missing, and the tags filled from the props,
    with fixed defaults for the omitted ones. */
module SeoHead {
  import opened Common
  import opened Text

  const Brand := "RwandaScratch"
  const Separator := " | "

  const DefaultKeywords :=
    "web development, mobile apps, programming courses, Rwanda, technology, software development"
  const DefaultImage := "/placeholder.svg"
  const DefaultType := "website"

  /** `fullTitle`: a title that mentions the brand is kept, any other is
      followed by " | RwandaScratch". */
  function FullTitle(title: string): (r: string)
    ensures Contains(title, Brand) ==> r == title
    ensures !Contains(title, Brand) ==> r == title + Separator + Brand
    ensures Contains(r, Brand)
  {
    if Contains(title, Brand) then title
    else
      ContainsSuffix(title + Separator, Brand);
      title + Separator + Brand
  }

  /** The title is kept exactly when it already mentions the brand. */
  lemma KeptIffBranded(title: string)
    ensures FullTitle(title) == title <==> Contains(title, Brand)
  {
    if !Contains(title, Brand) {
      assert |FullTitle(title)| > |title|;
    }
  }

  /** Applying the rule to its own result changes nothing. */
  lemma FullTitleIdempotent(title: string)
    ensures FullTitle(FullTitle(title)) == FullTitle(title)
  {
  }

  /** The component's props; an omitted optional prop is `None`. */
  datatype Props = Props(
    title: string,
    description: string,
    keywords: Option<string>,
    image: Option<string>,
    url: Option<string>,
    pageType: Option<string>)

  /** The tags written into the head that the props decide. */
  datatype Head = Head(
    title: string,
    ogTitle: string,
    twitterTitle: string,
    description: string,
    keywords: string,
    image: string,
    canonical: string,
    ogUrl: string,
    twitterUrl: string,
    ogType: string)

  /** The head for `props` on the page at `href`. A default parameter
      applies only to an omitted prop, so an empty string is kept. */
  function HeadOf(props: Props, href: string): (h: Head)
    ensures h.title == FullTitle(props.title) && h.ogTitle == h.title && h.twitterTitle == h.title
    ensures h.description == props.description
    ensures props.keywords.None? ==> h.keywords == DefaultKeywords
    ensures props.keywords.Some? ==> h.keywords == props.keywords.value
    ensures props.image.None? ==> h.image == DefaultImage
    ensures props.image.Some? ==> h.image == props.image.value
    ensures props.pageType.None? ==> h.ogType == DefaultType
    ensures props.pageType.Some? ==> h.ogType == props.pageType.value
    ensures h.canonical == h.ogUrl == h.twitterUrl == props.url.GetOr(href)
  {
    var title := FullTitle(props.title);
    var url := props.url.GetOr(href);
    Head(title, title, title, props.description, props.keywords.GetOr(DefaultKeywords),
         props.image.GetOr(DefaultImage), url, url, url, props.pageType.GetOr(DefaultType))
  }

  /** Every page's three titles mention the brand. */
  lemma TitlesBranded(props: Props, href: string)
    ensures var h := HeadOf(props, href);
      Contains(h.title, Brand) && Contains(h.ogTitle, Brand) && Contains(h.twitterTitle, Brand)
  {
  }
}
