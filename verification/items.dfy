/** The single entity of the application and the payload the form saves. */
module Items {
  import opened Wrappers

  /** An item as the list endpoint returns it. The id is assigned by the
      store; `title` and `description` may be missing on a stored document. */
  datatype Item = Item(id: string, title: Option<string>, description: Option<string>)

  /** The `{title, description}` object handed to create and update. */
  datatype ItemData = ItemData(title: string, description: string)
}
