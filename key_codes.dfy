/** The `Key` and `MouseButton` enumerations of src/core/input.h and
    src/re_core/input.cpp, as GLFW key and button codes. */
module KeyCodes {

  /** Every member of `Key`; the module version lists exactly these in
      `allKeys`. */
  function AllKeys(): set<int>
  {
    {32, 39, 44, 45, 46, 47, 48, 49, 50, 51, 52, 53, 54, 55, 56, 57, 59, 61,
    65, 66, 67, 68, 69, 70, 71, 72, 73, 74, 75, 76, 77, 78, 79, 80, 81, 82,
    83, 84, 85, 86, 87, 88, 89, 90, 91, 92, 93, 96, 161, 162,
    256, 257, 258, 259, 260, 261, 262, 263, 264, 265, 266, 267, 268, 269,
    280, 281, 282, 283, 284,
    290, 291, 292, 293, 294, 295, 296, 297, 298, 299, 300, 301, 302, 303,
    304, 305, 306, 307, 308, 309, 310, 311, 312, 313, 314,
    320, 321, 322, 323, 324, 325, 326, 327, 328, 329, 330, 331, 332, 333,
    334, 335, 336, 340, 341, 342, 343, 344, 345, 346, 347, 348 }
  }

  const KEY_ESCAPE: int := 256

  /** `MouseButton1` to `MouseButton8`; the named left, right and middle
      buttons alias the first three. */
  function AllMouseButtons(): set<int>
  {
    {0, 1, 2, 3, 4, 5, 6, 7}
  }
}
