/**
 * The records exchanged by the plugin: the asset-library photo record, the
 * asset handed back to the editor, and the plugin configuration.
 * Numbers of the JavaScript source are modelled as mathematical integers.
 */
module Types {
  import opened Wrappers

  /**
   * One photo record of the asset library's media API. `thumbnails` maps a
   * transformer name to a URL; its keys are open-ended, and a missing key
   * means the URL is absent.
   */
  datatype BynderPhoto = BynderPhoto(
    dateModified: string,
    mediaType: string,
    brandId: string,
    fileSize: int,
    id: string,
    height: int,
    description: string,
    idHash: string,
    name: string,
    tags: seq<string>,
    orientation: string,
    width: int,
    datePublished: string,
    copyright: string,
    extension: seq<string>,
    userCreated: string,
    dateCreated: string,
    archive: int,
    watermarked: int,
    limited: int,
    isPublic: int,
    thumbnails: map<string, string>,
    videoPreviewUrls: Option<seq<string>>,
    original: Option<string>,
    transformBaseUrl: string
  )

  /** How the editor should resolve an asset's `value`. */
  datatype AssetKind = UrlKind | Base64Kind | FileKind | AssetDocumentIdKind

  /** A file reference, the non-string alternative of an asset's value. */
  datatype FileRef = FileRef(url: string, width: Option<int>, height: Option<int>, fileSize: Option<int>, isFakeOriginal: Option<bool>)

  datatype AssetValue = StringValue(text: string) | FileValue(file: FileRef)

  /** Where an asset came from. */
  datatype AssetOrigin = AssetOrigin(id: string, name: string, url: Option<string>)

  /**
   * Metadata stored on the created asset document. `documentType` is the
   * `_type` key the picker adds and `labelText` is the `label`
   * key; every field is optional as declared.
   */
  datatype AssetDocumentProps = AssetDocumentProps(
    documentType: Option<string>,
    originalFileName: Option<string>,
    labelText: Option<string>,
    title: Option<string>,
    description: Option<string>,
    source: Option<AssetOrigin>,
    creditLine: Option<string>
  )

  /** One asset handed to the editor's `onSelect` callback. */
  datatype Asset = Asset(kind: AssetKind, value: AssetValue, assetDocumentProps: Option<AssetDocumentProps>)

  /** The complete plugin configuration, after defaults are applied. */
  datatype BynderConfig = BynderConfig(
    name: string,
    apiToken: string,
    menuTitle: string,
    thumbnailTransformerName: string,
    portalDomain: string
  )
}
