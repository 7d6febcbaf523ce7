/**
 * The roadmap call-to-action card (src/components/Roadmap/RoadmapActionCard.tsx):
 * the image chosen by key with a fallback to the future-proofing image, and
 * the card's text and link.
 *
 * `images[image]` reads a plain object literal, so a key naming a member
 * inherited from `Object.prototype` yields that member, which is not
 * nullish; `??` then does not fall back. `ImageAsWritten` and
 * `RenderCardAsWritten` model that lookup; `ImageFor` is the intended lookup,
 * which `RenderCard` uses.
 */
module RoadmapActionCard {
  import opened Wrappers

  datatype RoadmapImage = FutureProofing | Scaling | Security | UserExperience

  /** The object literal's own keys. */
  function OwnImage(key: string): (r: Option<RoadmapImage>)
    ensures r.Some? <==> key in {"futureProofing", "scaling", "security", "userExperience"}
  {
    if key == "futureProofing" then Some(FutureProofing)
    else if key == "scaling" then Some(Scaling)
    else if key == "security" then Some(Security)
    else if key == "userExperience" then Some(UserExperience)
    else None
  }

  /** The property names every object literal inherits from `Object.prototype`. */
  const InheritedMembers: set<string> := {
    "constructor", "hasOwnProperty", "isPrototypeOf", "propertyIsEnumerable",
    "toLocaleString", "toString", "valueOf", "__proto__",
    "__defineGetter__", "__defineSetter__", "__lookupGetter__", "__lookupSetter__"
  }

  /** What the card hands to the image component as its source. */
  datatype ImageSource = Picture(image: RoadmapImage) | InheritedMember(name: string)

  /** `images[image] ?? images.futureProofing`, as written. */
  function ImageAsWritten(key: string): (r: ImageSource)
    ensures OwnImage(key).Some? ==> r == Picture(OwnImage(key).value)
    ensures OwnImage(key).None? && key in InheritedMembers ==> r == InheritedMember(key)
    ensures OwnImage(key).None? && key !in InheritedMembers ==> r == Picture(FutureProofing)
  {
    match OwnImage(key)
    case Some(img) => Picture(img)
    case None => if key in InheritedMembers then InheritedMember(key) else Picture(FutureProofing)
  }

  /** The intended lookup: one of the four images for every key, the future-proofing one for unknown keys. */
  function ImageFor(key: string): (r: RoadmapImage)
    ensures OwnImage(key).Some? ==> r == OwnImage(key).value
    ensures OwnImage(key).None? ==> r == FutureProofing
  {
    OwnImage(key).GetOr(FutureProofing)
  }

  /** The key "constructor" reaches the image component as `Object`, not as a picture. */
  lemma ConstructorKeySkipsFallback()
    ensures ImageAsWritten("constructor") == InheritedMember("constructor")
    ensures ImageFor("constructor") == FutureProofing
  {
  }

  /** The lookup as written and the intended one differ exactly on the inherited member names. */
  lemma AsWrittenAgreesOffInheritedMembers(key: string)
    ensures ImageAsWritten(key) == Picture(ImageFor(key)) <==> key !in InheritedMembers
  {
  }

  /** The card's props: `image` is a key into the image table. */
  datatype CardProps = CardProps(to: string, alt: string, image: string, title: string,
                                 description: string, buttonText: string)

  datatype CardView = CardView(image: ImageSource, alt: string, heading: string,
                               text: string, buttonText: string, href: string)

  /** The rendered card with the intended lookup: one of the four pictures, and the props' text and link unchanged. */
  function RenderCard(p: CardProps): (v: CardView)
    ensures v.image == Picture(ImageFor(p.image))
    ensures v.alt == p.alt && v.heading == p.title && v.text == p.description
    ensures v.buttonText == p.buttonText && v.href == p.to
  {
    CardView(Picture(ImageFor(p.image)), p.alt, p.title, p.description, p.buttonText, p.to)
  }

  /**
   * The card as written: the image component receives `ImageAsWritten`. It is
   * the card above except for an inherited member name, where it receives that member.
   */
  function RenderCardAsWritten(p: CardProps): (v: CardView)
    ensures v.image == ImageAsWritten(p.image)
    ensures p.image !in InheritedMembers ==> v == RenderCard(p)
    ensures p.image in InheritedMembers ==> v == RenderCard(p).(image := InheritedMember(p.image))
  {
    CardView(ImageAsWritten(p.image), p.alt, p.title, p.description, p.buttonText, p.to)
  }
}
