# File handler and validation helpers, modelled in Dafny

This project models the logic inside two utility classes of a Spring REST API.

- The shared helpers of the `FileHandler` storage contract:
  - `isImageType` recognises an image upload by its declared media type.
  - `handleImageMetadata` fills the width, height and thumbnail path into an
    `UploadResult`. It swallows read failures and falls back to the file path
    when there is no thumbnail.
  - `normalizeDirectory` rejects a blank directory name and appends the path
    separator when it is missing.
- The collection logic of `ValidationUtils`:
  - `mapWithFieldError` and `mapWithValidError` turn errors into a
    field-to-message map, where the last write wins.
  - `validate(Iterable, groups)` runs the validator on every element,
    gathers the violations into an insertion-ordered set and throws when
    that set is not empty.
  - `validate(Object, groups)` dispatches a single bean or an iterable.

Files:

- `wrappers.dfy`: `Option` stands for Java `null`. `Result` stands for a call
  that throws.
- `text.dfy`: whitespace as `Character.isWhitespace` defines it, blankness
  (`StringUtils.isBlank`, `Assert.hasText`) and `endsWith`.
- `file_handler.dfy`: module `FileHandler`. `UploadResult` is a class whose
  fields `HandleImageMetadata` updates in place. The method is specified by
  the function `AfterImageMetadata`, and the properties of the metadata step
  are proved about that function.
- `validation_utils.dfy`: module `ValidationUtils`. The map builders and both
  `validate` overloads are methods with loops. Each is proved against a
  specification function:
  - `PutAll` is a `HashMap` after a run of `put`s.
  - `Deduplicated` is a `LinkedHashSet` after a run of `add`s.
  - `Reported` is the violations reported element by element.

Some collaborators become parameters:

- The path separator (`File.separator`) is the parameter `sep`.
- The validation engine is a function from a bean to the violations it reports.
  A set's iteration order is written as a sequence.
- How far reading an image header gets is an `ImageRead` value:
  - `ReadFailed`: opening the stream, choosing the reader or reading the width
    throws an IOException or an OutOfMemoryError.
  - `HeightFailed(w)`: the width was read and set, then reading the height threw
    an IOException or an OutOfMemoryError.
  - `Read(w, h)`: both dimensions were read.

The source sets the width before it asks for the height, so a failure between
the two reads leaves the width set and the height untouched. The model keeps
that order. The thumbnail supplier is called only after both dimensions are
set, so the code calls it only for an image whose dimensions were read, not
for every image. A directory name that already ends with the separator is
returned as it is; repeated trailing separators are not collapsed.

## Model

| member | source | states |
|---|---|---|
| `FileHandler.IsImageType` | src/main/java/com/api/common/attachment/FileHandler.java:51-54 | false for a null content type; true exactly when the media type's main type is "image" (what `image/*` includes) |
| `FileHandler.NormalizeDirectory` | src/main/java/com/api/common/attachment/FileHandler.java:103-108 | fails with the "must not be blank" message exactly when the name is blank; otherwise the result starts with the name and ends with the separator, and it is the name itself when the separator is already there, else the name plus the separator |
| `FileHandler.NormalizeDirectoryIdempotent` | src/main/java/com/api/common/attachment/FileHandler.java:104-108 | normalising a normalised name gives the same result |
| `FileHandler.NormalizeDirectoryIsShortest` | src/main/java/com/api/common/attachment/FileHandler.java:107 | with a one-character separator the result is the shortest string that extends the name and ends with the separator |
| `FileHandler.NormalizeDirectoryExamples` | src/main/java/com/api/common/attachment/FileHandler.java:97-108 | "a/b" and "a/b/" both normalise to "a/b/"; "" and a whitespace-only name are rejected |
| `FileHandler.AfterImageMetadata` | src/main/java/com/api/common/attachment/FileHandler.java:61-80 | key, file path and suffix never change; the thumbnail path ends non-blank or equal to the file path; width is set only for an image whose width was read, height only when both were read; the thumbnail is the supplier's result when the supplier is called, else the old thumbnail, and a blank or null one is replaced by the file path |
| `FileHandler.HandleImageMetadata` | src/main/java/com/api/common/attachment/FileHandler.java:61-80 | the result's new fields are exactly `AfterImageMetadata` of its old fields; the supplier is called once when the file is an image, both dimensions were read and a supplier is present, and never otherwise |
| `FileHandler.NonImageUntouched` | src/main/java/com/api/common/attachment/FileHandler.java:63-79 | for a non-image, width and height are unchanged, the supplier is not called, and only the blank-thumbnail fallback applies |
| `FileHandler.FailedReadSwallowed` | src/main/java/com/api/common/attachment/FileHandler.java:65-79 | an image whose read fails at once ends exactly like a non-image: nothing propagates and the supplier is not called |
| `FileHandler.UploadScenarios` | src/main/java/com/api/common/attachment/FileHandler.java:61-80 | a 100x200 PNG with supplier "/thumbs/x.png" gets width 100, height 200 and that thumbnail; a text/plain file keeps no dimensions and its thumbnail is its file path |
| `ValidationUtils.PutAllKeys` | src/main/java/com/api/common/utils/ValidationUtils.java:144 | the map's keys are exactly the keys that were put |
| `ValidationUtils.PutAllLastWins` | src/main/java/com/api/common/utils/ValidationUtils.java:144 | each key maps to the value of the last entry that put it |
| `ValidationUtils.PutAllSize` | src/main/java/com/api/common/utils/ValidationUtils.java:144 | the map has at most as many keys as there were entries, and exactly as many if and only if no key repeats |
| `ValidationUtils.PutAllSizeStep` | src/main/java/com/api/common/utils/ValidationUtils.java:144 | one more put grows the map by one exactly when its key is new |
| `ValidationUtils.DistinctKeysSnoc` | src/main/java/com/api/common/utils/ValidationUtils.java:144 | keys stay distinct after one more entry exactly when its key is new |
| `ValidationUtils.MapWithFieldError` | src/main/java/com/api/common/utils/ValidationUtils.java:138-146 | empty for a null or empty list; keys are exactly the fields; each field maps to the message of its last error; size at most the number of errors, equal if and only if the fields are distinct |
| `ValidationUtils.MapWithValidError` | src/main/java/com/api/common/utils/ValidationUtils.java:119-129 | empty for a null or empty set; keys are exactly the property paths; each path maps to the message of its last violation in iteration order; size at most the number of violations |
| `ValidationUtils.ReportedMembers` | src/main/java/com/api/common/utils/ValidationUtils.java:96-106 | a violation is among those reported for the iterable exactly when the validator reports it for some element |
| `ValidationUtils.DeduplicatedMembers` | src/main/java/com/api/common/utils/ValidationUtils.java:95-105 | the insertion-ordered set holds exactly the violations added to it |
| `ValidationUtils.DeduplicatedNoDuplicates` | src/main/java/com/api/common/utils/ValidationUtils.java:95-105 | the insertion-ordered set holds no violation twice |
| `ValidationUtils.FirstIndexAppend` | src/main/java/com/api/common/utils/ValidationUtils.java:105 | adding later violations does not move the first occurrence of an earlier one |
| `ValidationUtils.DeduplicatedFirstSeenOrder` | src/main/java/com/api/common/utils/ValidationUtils.java:95-106 | the set lists violations in the order in which they were first reported |
| `ValidationUtils.IterableVerdictMeaning` | src/main/java/com/api/common/utils/ValidationUtils.java:95-110 | the iterable throws exactly when some element has a violation; the thrown violations are the union over the elements, each listed once |
| `ValidationUtils.ValidateIterable` | src/main/java/com/api/common/utils/ValidationUtils.java:85-111 | a null iterable passes without calling the validator; otherwise the validator runs once per element and the outcome is the verdict on the deduplicated, first-seen-ordered violations; it throws exactly when some element has a violation |
| `ValidationUtils.Validate` | src/main/java/com/api/common/utils/ValidationUtils.java:61-77 | a single bean throws exactly its validator's violations, and throws if and only if there are any; an iterable gets the iterable overload's outcome |

## Left out

- `upload`, `delete` and `getAttachmentType` are abstract methods without bodies. The storage backends that implement them are not part of this model.
- `IsImageType`: the parsing of the content-type string (`MediaType.valueOf`) is left out. That includes its lower-casing and the exception it throws on a malformed string, which would propagate out of `isImageType` and `handleImageMetadata`. The content type is taken as already parsed.
- The `*+suffix` subtype wildcards of `MimeType.includes` are left out. `image/*` does not use them.
- `HandleImageMetadata`: opening the stream, choosing an image reader by suffix and closing the stream are I/O. Their combined effect is the `ImageRead` parameter. A failure while closing comes after every field update, so it ends like `Read`.
- `HandleImageMetadata`: does not model a thumbnail supplier that throws. A RuntimeException from it would propagate. An OutOfMemoryError from it would be swallowed after the dimensions are set.
- HandleImageMetadata: does not model an unchecked exception other than OutOfMemoryError (a RuntimeException, say) thrown while opening the stream, choosing the reader or reading the width or height. It would propagate out of `handleImageMetadata` and skip the blank-thumbnail fallback; `ImageRead` covers only the IOException and OutOfMemoryError that are caught.
- Logging the swallowed read failure is a side effect only.
- `getValidator` builds the shared validator once with double-checked locking. Only its result matters here: the validator parameter. The validation groups are folded into that parameter.
- The engine's own treatment of a null bean is not modelled, whether the null is the argument of `validate(Object, groups)` or an element of the iterable in `validate(Iterable, groups)`. The engine is outside this model.
- The commented-out property-path index tagging in `validate(Iterable, groups)` is dead code. The `index` counter it would have used is modelled only as the number of validator calls.
- A `HashMap`'s own iteration order is not modelled. The maps are values.
- `SwaggerConfiguration` only wires OpenAPI configuration. `OutputConverter` is a thin wrapper over reflective property copying, which is not part of this model.
