/** The `heck` crate's case conversions. Their word-splitting rules belong to
    that crate, so the model takes them as given functions. */
module Heck {
  datatype CaseConversions = CaseConversions(
    snake: string -> string,        // `AsSnakeCase`
    pascal: string -> string,       // `AsPascalCase`
    lowerCamel: string -> string,   // `AsLowerCamelCase`
    shoutySnake: string -> string,  // `AsShoutySnakeCase`
    kebab: string -> string,        // `AsKebabCase`
    shoutyKebab: string -> string   // `AsShoutyKebabCase`
  )
}
