/** Loading a PPM image into a device-independent bitmap: the image is turned upside down, its rows are
    padded, its channels reversed, and a header is put in front. */
module Dib {
  type Byte = x: int | 0 <= x < 256

  const HEADER := 40                 // sizeof(BITMAPINFOHEADER)

  /* ---- Sizes ---- */

  /** The bytes of a row in the file. */
  function ImageBytesPerScan(cols: nat): nat {
    cols * 24 / 8
  }

  /** The bytes of a row in memory, as the loader computes them. */
  function MemBytesPerScan(cols: nat): nat {
    var blocks := ImageBytesPerScan(cols) / 4;
    (if ImageBytesPerScan(cols) % 4 != 0 then blocks + 1 else blocks) * 4
  }

  /** `WIDTHBYTES`, by which the rest of the system finds the rows of a bitmap. */
  function WidthBytes(bits: nat): nat {
    (bits + 31) / 32 * 4
  }

  /** The stride is a multiple of 4 that holds a row, and none is smaller. */
  lemma StrideIsLeast(cols: nat, other: nat)
    ensures MemBytesPerScan(cols) % 4 == 0 && MemBytesPerScan(cols) >= 3 * cols
    ensures other % 4 == 0 && other >= 3 * cols ==> other >= MemBytesPerScan(cols)
  {
    assert ImageBytesPerScan(cols) == 3 * cols;
    assert MemBytesPerScan(cols) < 3 * cols + 4;
  }

  /** It is the one that `WIDTHBYTES` gives. */
  lemma StrideIsWidthBytes(cols: nat)
    ensures MemBytesPerScan(cols) == WidthBytes(24 * cols)
  {
    var q := (3 * cols + 3) / 4;
    assert ImageBytesPerScan(cols) == 3 * cols;
    assert MemBytesPerScan(cols) == q * 4;
    assert 32 * q <= 24 * cols + 31 < 32 * q + 32;
  }

  /** Division in C, which cuts towards zero. */
  function TruncDiv(a: int, b: int): int
    requires b > 0
  {
    if a >= 0 then a / b else -(-a / b)
  }

  function TruncMod(a: int, b: int): int
    requires b > 0
  {
    a - TruncDiv(a, b) * b
  }

  /** The stride as the loader computes it from any number of columns. */
  function Stride(cols: int): int {
    var row := TruncDiv(cols * 24, 8);
    (if TruncMod(row, 4) != 0 then TruncDiv(row, 4) + 1 else TruncDiv(row, 4)) * 4
  }

  lemma StrideOfNat(cols: int)
    ensures TruncDiv(cols * 24, 8) == 3 * cols
    ensures cols >= 0 ==> Stride(cols) == MemBytesPerScan(cols)
    ensures cols == 0 ==> Stride(cols) == 0
  {
  }

  /* ---- Numbers in bytes ---- */

  function ByteOf(v: nat, k: nat): Byte
    requires k < 4
  {
    if k == 0 then v % 256 else if k == 1 then v / 256 % 256 else if k == 2 then v / 256 / 256 % 256
    else v / 256 / 256 / 256 % 256
  }

  function At(s: seq<Byte>, i: int): Byte {
    if 0 <= i < |s| then s[i] else 0
  }

  function ReadWord(s: seq<Byte>, at: int): nat {
    At(s, at) + 256 * At(s, at + 1)
  }

  function ReadDword(s: seq<Byte>, at: int): nat {
    At(s, at) + 256 * At(s, at + 1) + 0x1_0000 * At(s, at + 2) + 0x100_0000 * At(s, at + 3)
  }

  lemma DwordOfBytes(v: nat)
    requires v < 0x1_0000_0000
    ensures ByteOf(v, 0) + 256 * ByteOf(v, 1) + 0x1_0000 * ByteOf(v, 2) + 0x100_0000 * ByteOf(v, 3) == v
  {
    var a, b, c := v / 256, v / 256 / 256, v / 256 / 256 / 256;
    assert v == 256 * a + v % 256 && a == 256 * b + a % 256 && b == 256 * c + b % 256 && c < 256;
  }

  /* ---- dibapi ---- */

  predicate IsWin30(s: seq<Byte>) {
    ReadDword(s, 0) == HEADER
  }

  function DibWidth(s: seq<Byte>): nat {
    if IsWin30(s) then ReadDword(s, 4) else ReadWord(s, 4)
  }

  function DibHeight(s: seq<Byte>): nat {
    if IsWin30(s) then ReadDword(s, 8) else ReadWord(s, 6)
  }

  function BitCount(s: seq<Byte>): nat {
    if IsWin30(s) then ReadWord(s, 14) else ReadWord(s, 10)
  }

  /** The entries of the colour table. */
  function NumColors(s: seq<Byte>): nat {
    if IsWin30(s) && ReadDword(s, 32) != 0 then ReadDword(s, 32) % 0x1_0000
    else
      match BitCount(s)
      case 1 => 2
      case 4 => 16
      case 8 => 256
      case _ => 0
  }

  function PaletteSize(s: seq<Byte>): nat {
    NumColors(s) * (if IsWin30(s) then 4 else 3) % 0x1_0000
  }

  /** `FindDIBBits`, as an offset into the block. */
  function FindBits(s: seq<Byte>): nat {
    ReadDword(s, 0) + PaletteSize(s)
  }

  /** How many values a pixel of so many bits can have. */
  function PixelValues(bits: nat): nat {
    if bits == 0 then 1 else 2 * PixelValues(bits - 1)
  }

  lemma PixelValuesAre()
    ensures PixelValues(1) == 2 && PixelValues(4) == 16 && PixelValues(8) == 256
  {
    assert PixelValues(4) == 2 * PixelValues(3) && PixelValues(3) == 2 * PixelValues(2);
    assert PixelValues(2) == 2 * PixelValues(1);
    assert PixelValues(8) == 2 * PixelValues(7) && PixelValues(7) == 2 * PixelValues(6);
    assert PixelValues(6) == 2 * PixelValues(5) && PixelValues(5) == 2 * PixelValues(4);
  }

  /** The pixels begin behind the header and a colour table that has one entry for every value of a pixel, of
      four bytes behind a BITMAPINFOHEADER and of three behind a BITMAPCOREHEADER; 24 bits need no table. */
  lemma BitsBehindTable(s: seq<Byte>, bits: nat)
    requires bits in {1, 4, 8, 24}
    ensures var entries := if bits == 24 then 0 else PixelValues(bits);
            && (ReadDword(s, 0) == 40 && ReadWord(s, 14) == bits && ReadDword(s, 32) == 0 ==>
                  FindBits(s) == 40 + 4 * entries)
            && (ReadDword(s, 0) == 12 && ReadWord(s, 10) == bits ==> FindBits(s) == 12 + 3 * entries)
  {
    PixelValuesAre();
  }

  /** A header that gives the size of its table is believed; the pixels are found behind the whole table exactly
      if that size, in bytes, fits into a WORD. */
  lemma GivenTableIff(s: seq<Byte>)
    requires ReadDword(s, 0) == 40 && ReadDword(s, 32) != 0
    ensures FindBits(s) == 40 + 4 * ReadDword(s, 32) <==> ReadDword(s, 32) < 0x4000
  {
    CutToWord(ReadDword(s, 32));
  }

  lemma CutToWord(n: nat)
    ensures n % 0x1_0000 * 4 % 0x1_0000 == 4 * n <==> n < 0x4000
  {
    if n < 0x4000 {
      assert n % 0x1_0000 == n;
    } else {
      assert 4 * n >= 0x1_0000;
    }
  }

  /** A number below 65536 in two bytes. */
  function Word(v: nat): (bytes: seq<Byte>)
    requires v < 0x1_0000
  {
    [v % 256, v / 256]
  }

  /** The twelve bytes of a BITMAPCOREHEADER. */
  function CoreHeader(width: nat, height: nat, bits: nat): (bytes: seq<Byte>)
    requires width < 0x1_0000 && height < 0x1_0000 && bits < 0x1_0000
  {
    [12, 0, 0, 0] + Word(width) + Word(height) + [1, 0] + Word(bits)
  }

  /** A block with such a header is read with the sizes it was written with. */
  lemma CoreHeaderIsRead(width: nat, height: nat, bits: nat, rest: seq<Byte>)
    requires width < 0x1_0000 && height < 0x1_0000 && bits in {1, 4, 8, 24}
    ensures var s := CoreHeader(width, height, bits) + rest;
            && DibWidth(s) == width && DibHeight(s) == height
            && FindBits(s) == 12 + 3 * if bits == 24 then 0 else PixelValues(bits)
  {
    PixelValuesAre();
  }

  /* ---- What is loaded ---- */

  /** The position of a channel in a pixel whose channels are reversed. */
  function Swap(c: nat): nat {
    c / 3 * 3 + 2 - c % 3
  }

  lemma SwapTwice(c: nat, cols: nat)
    ensures Swap(Swap(c)) == c && (c < 3 * cols ==> Swap(c) < 3 * cols)
  {
  }

  /** Where a row of the file starts in memory. */
  function RowStart(stride: nat, rows: nat, row: int): int {
    HEADER + (rows - 1 - row) * stride
  }

  predicate RowCopied(s: seq<Byte>, img: seq<Byte>, at: int, from: int, width: nat) {
    forall c: nat | c < width :: At(s, at + c) == At(img, from + Swap(c))
  }

  ghost predicate RowsCopied(s: seq<Byte>, img: seq<Byte>, cols: nat, rows: nat, upto: int) {
    forall r: nat | r < upto ::
      RowCopied(s, img, RowStart(MemBytesPerScan(cols), rows, r), r * (3 * cols), 3 * cols)
  }

  /** The header fields the loader sets: 24 bits, no colour table. */
  predicate HeaderSet(s: seq<Byte>, cols: nat, rows: nat) {
    && ReadDword(s, 0) == HEADER && ReadDword(s, 4) == cols && ReadDword(s, 8) == rows
    && ReadWord(s, 12) == 1 && ReadWord(s, 14) == 24
    && ReadDword(s, 16) == 0 && ReadDword(s, 20) == 0 && ReadDword(s, 24) == 0
    && ReadDword(s, 28) == 0 && ReadDword(s, 32) == 0 && ReadDword(s, 36) == 0
  }

  lemma Distributes(a: int, b: int, m: int)
    ensures (a + b) * m == a * m + b * m
  {
  }

  lemma ProductIsNat(a: nat, m: nat)
    ensures a * m >= 0
  {
  }

  /** Rows do not overlap. */
  lemma RowsApart(stride: nat, rows: nat, r: nat, q: nat)
    requires r < q < rows
    ensures RowStart(stride, rows, r) >= RowStart(stride, rows, q) + stride
  {
    Distributes(rows - 1 - q, q - r, stride);
    Distributes(q - r - 1, 1, stride);
    ProductIsNat(q - r - 1, stride);
  }

  /** They lie behind the header and inside the block. */
  lemma RowInside(stride: nat, rows: nat, r: nat)
    requires r < rows
    ensures HEADER <= RowStart(stride, rows, r)
    ensures RowStart(stride, rows, r) + stride <= HEADER + rows * stride
  {
    ProductIsNat(rows - 1 - r, stride);
    ProductIsNat(r, stride);
    Distributes(rows - 1 - r, r + 1, stride);
    Distributes(r, 1, stride);
  }

  lemma SameRow(s: seq<Byte>, t: seq<Byte>, img: seq<Byte>, at: int, from: int, width: nat)
    requires RowCopied(s, img, at, from, width)
    requires forall k | at <= k < at + width :: At(t, k) == At(s, k)
    ensures RowCopied(t, img, at, from, width)
  {
    forall c: nat | c < width ensures At(t, at + c) == At(img, from + Swap(c)) {
      assert At(s, at + c) == At(img, from + Swap(c));
    }
  }

  /* ---- The loader ---- */

  /** The inner loop: one row, three bytes at a time. */
  method CopyRow(a: array<Byte>, img: seq<Byte>, pMem: int, pImg: int, width: nat)
    requires 0 <= pMem && pMem + width <= a.Length
    requires 0 <= pImg && pImg + width <= |img|
    requires width % 3 == 0
    modifies a
    ensures RowCopied(a[..], img, pMem, pImg, width)
    ensures forall k | 0 <= k < a.Length && !(pMem <= k < pMem + width) :: a[k] == old(a[k])
  {
    var col := 0;
    while col < width
      invariant 0 <= col <= width && col % 3 == 0
      invariant forall c: nat | c < col :: a[pMem + c] == At(img, pImg + Swap(c))
      invariant forall k | 0 <= k < a.Length && !(pMem <= k < pMem + col) :: a[k] == old(a[k])
    {
      a[pMem + col] := img[pImg + col + 2];
      a[pMem + col + 1] := img[pImg + col + 1];
      a[pMem + col + 2] := img[pImg + col];
      assert Swap(col) == col + 2 && Swap(col + 1) == col + 1 && Swap(col + 2) == col;
      col := col + 3;
    }
  }

  lemma CopyKeepsRows(s: seq<Byte>, t: seq<Byte>, img: seq<Byte>, cols: nat, rows: nat, row: nat)
    requires row < rows && RowsCopied(s, img, cols, rows, row)
    requires RowCopied(t, img, RowStart(MemBytesPerScan(cols), rows, row), row * (3 * cols), 3 * cols)
    requires forall k | k >= RowStart(MemBytesPerScan(cols), rows, row) + 3 * cols :: At(t, k) == At(s, k)
    ensures RowsCopied(t, img, cols, rows, row + 1)
  {
    var stride := MemBytesPerScan(cols);
    StrideIsLeast(cols, 0);
    forall r: nat | r < row + 1 ensures RowCopied(t, img, RowStart(stride, rows, r), r * (3 * cols), 3 * cols) {
      if r < row {
        RowsApart(stride, rows, r, row);
        SameRow(s, t, img, RowStart(stride, rows, r), r * (3 * cols), 3 * cols);
      }
    }
  }

  /** The two loops: all rows, from the bottom of the block upwards. */
  method CopyRows(a: array<Byte>, img: seq<Byte>, cols: nat, rows: nat)
    requires a.Length == HEADER + rows * MemBytesPerScan(cols)
    requires |img| == rows * (3 * cols)
    modifies a
    ensures RowsCopied(a[..], img, cols, rows, rows)
  {
    var stride := MemBytesPerScan(cols);
    StrideIsLeast(cols, 0);
    NextRow(cols, stride, rows, -1);
    var pMem, pImg := HEADER + rows * stride - stride, 0;
    var row := 0;
    while row < rows
      invariant 0 <= row <= rows
      invariant pMem == RowStart(stride, rows, row) && pImg == row * (3 * cols)
      invariant RowsCopied(a[..], img, cols, rows, row)
    {
      RowInside(stride, rows, row);
      ImageRowInside(cols, rows, row);
      NextRow(cols, stride, rows, row);
      ghost var before := a[..];
      CopyRow(a, img, pMem, pImg, 3 * cols);
      CopyKeepsRows(before, a[..], img, cols, rows, row);
      row, pMem, pImg := row + 1, pMem - stride, pImg + 3 * cols;
    }
  }

  /** What the moving pointers come to. */
  lemma NextRow(cols: nat, stride: nat, rows: nat, row: int)
    ensures RowStart(stride, rows, row) - stride == RowStart(stride, rows, row + 1)
    ensures row * (3 * cols) + 3 * cols == (row + 1) * (3 * cols)
    ensures RowStart(stride, rows, -1) == HEADER + rows * stride
  {
    Distributes(rows - 1 - row, -1, stride);
    Distributes(row, 1, 3 * cols);
  }

  lemma ImageRowInside(cols: nat, rows: nat, r: nat)
    requires r < rows
    ensures 0 <= r * (3 * cols) && r * (3 * cols) + 3 * cols <= rows * (3 * cols)
  {
    ProductIsNat(r, 3 * cols);
    ProductIsNat(rows - 1 - r, 3 * cols);
    Distributes(r + 1, rows - 1 - r, 3 * cols);
    Distributes(r, 1, 3 * cols);
  }

  /** A field of the header. */
  method PutDword(a: array<Byte>, at: nat, v: nat)
    requires at + 4 <= a.Length && v < 0x1_0000_0000
    modifies a
    ensures ReadDword(a[..], at) == v
    ensures forall k | 0 <= k < a.Length && !(at <= k < at + 4) :: a[k] == old(a[k])
  {
    a[at], a[at + 1], a[at + 2], a[at + 3] := ByteOf(v, 0), ByteOf(v, 1), ByteOf(v, 2), ByteOf(v, 3);
    DwordOfBytes(v);
  }

  method PutWord(a: array<Byte>, at: nat, v: nat)
    requires at + 2 <= a.Length && v < 0x1_0000
    modifies a
    ensures ReadWord(a[..], at) == v
    ensures forall k | 0 <= k < a.Length && !(at <= k < at + 2) :: a[k] == old(a[k])
  {
    a[at], a[at + 1] := v % 256, v / 256;
  }

  /** The BITMAPINFOHEADER. */
  method PutHeader(a: array<Byte>, cols: nat, rows: nat)
    requires a.Length >= HEADER && cols < 0x1_0000_0000 && rows < 0x1_0000_0000
    modifies a
    ensures HeaderSet(a[..], cols, rows)
    ensures forall k | HEADER <= k < a.Length :: a[k] == old(a[k])
  {
    PutDword(a, 0, HEADER);          // biSize
    PutDword(a, 4, cols);            // biWidth
    PutDword(a, 8, rows);            // biHeight
    PutWord(a, 12, 1);               // biPlanes
    PutWord(a, 14, 24);              // biBitCount
    PutDword(a, 16, 0);              // biCompression: BI_RGB
    PutDword(a, 20, 0);              // biSizeImage
    PutDword(a, 24, 0);
    PutDword(a, 28, 0);
    PutDword(a, 32, 0);              // biClrUsed
    PutDword(a, 36, 0);
  }

  /** A block that holds an image: its header, and every row of the image. */
  ghost predicate Holds(s: seq<Byte>, img: seq<Byte>, cols: nat, rows: nat) {
    && |s| == HEADER + rows * MemBytesPerScan(cols)
    && HeaderSet(s, cols, rows)
    && RowsCopied(s, img, cols, rows, rows)
  }

  /** A number as a DWORD. */
  function Dword(v: int): nat {
    v % 0x1_0000_0000
  }

  /** The sizes and their products fit into an int. */
  predicate Fits(cols: int, rows: int) {
    && -0x8000_0000 <= 24 * cols < 0x8000_0000 && -0x8000_0000 <= rows < 0x8000_0000
    && HEADER + rows * Stride(cols) < 0x8000_0000
  }

  /** The size of the block for sizes that agree with the number of bytes read: if only one is negative the
      file is empty and there is no room for rows; if both are, there is room for whole strides unless there
      is -1 column. */
  lemma NegativeSizes(cols: int, rows: int, length: nat)
    requires (cols < 0 || rows < 0) && length == rows * (3 * cols)
    ensures (cols < 0) != (rows < 0) ==> length == 0 && rows * Stride(cols) == 0
    ensures rows * Stride(cols) < 0 <==> cols == -1 && rows < 0
  {
    StrideOfNat(cols);
    if cols < 0 && rows > 0 {
      NegativeProduct(rows, -(3 * cols));
    } else if rows < 0 && cols > 0 {
      NegativeProduct(-rows, 3 * cols);
    } else if cols == -1 && rows < 0 {
      assert Stride(-1) == 4;
    } else if cols < 0 && rows < 0 {
      assert Stride(cols) <= 0;
      ProductIsNat(-rows, -Stride(cols));
      OppositeSigns(rows, Stride(cols));
    }
  }

  lemma OppositeSigns(a: int, b: int)
    ensures -a * -b == a * b
  {
  }

  lemma NegativeProduct(a: int, b: int)
    requires a > 0 && b > 0
    ensures a * -b < 0 && -a * b < 0
  {
    Monotone(1, a, b);
  }

  lemma Monotone(a: nat, b: nat, m: nat)
    requires a <= b
    ensures a * m <= b * m
  {
    ProductIsNat(b - a, m);
    Distributes(b - a, a, m);
  }

  /** `ui_bitmap_load_ppm_file`; null if the sizes do not agree with the number of bytes read. */
  method LoadPpm(img: seq<Byte>, cols: int, rows: int) returns (pBits: array?<Byte>)
    requires Fits(cols, rows) && (cols == -1 && rows < 0 ==> |img| != rows * (3 * cols))
    ensures pBits == null <==> |img| != rows * (3 * cols)
    ensures pBits != null && cols >= 0 && rows >= 0 ==> fresh(pBits) && Holds(pBits[..], img, cols, rows)
    ensures pBits != null && (cols < 0 || rows < 0) ==>
              && fresh(pBits) && pBits.Length == HEADER + rows * Stride(cols)
              && HeaderSet(pBits[..], Dword(cols), Dword(rows))
    ensures pBits != null && (cols < 0) != (rows < 0) ==> img == [] && pBits.Length == HEADER
  {
    var imageBytesPerScan := TruncDiv(cols * 24, 8);
    var memSize := rows * Stride(cols);
    StrideOfNat(cols);
    if |img| != rows * imageBytesPerScan {
      return null;
    }
    if cols < 0 || rows < 0 {
      NegativeSizes(cols, rows, |img|);     // the loops below would not turn
      pBits := new Byte[HEADER + memSize];
      PutHeader(pBits, Dword(cols), Dword(rows));
      return;
    }
    pBits := LoadRows(img, cols, rows, memSize);
  }

  method LoadRows(img: seq<Byte>, cols: nat, rows: nat, memSize: int) returns (pBits: array<Byte>)
    requires memSize == rows * MemBytesPerScan(cols) && |img| == rows * (3 * cols)
    requires cols < 0x8000_0000 && rows < 0x8000_0000
    ensures fresh(pBits) && Holds(pBits[..], img, cols, rows)
  {
    ProductIsNat(rows, MemBytesPerScan(cols));
    pBits := new Byte[HEADER + memSize];
    CopyRows(pBits, img, cols, rows);
    ghost var before := pBits[..];
    PutHeader(pBits, cols, rows);
    HeaderKeepsRows(before, pBits[..], img, cols, rows);
  }

  lemma HeaderKeepsRows(s: seq<Byte>, t: seq<Byte>, img: seq<Byte>, cols: nat, rows: nat)
    requires RowsCopied(s, img, cols, rows, rows) && forall k | k >= HEADER :: At(t, k) == At(s, k)
    ensures RowsCopied(t, img, cols, rows, rows)
  {
    var stride := MemBytesPerScan(cols);
    forall r: nat | r < rows ensures RowCopied(t, img, RowStart(stride, rows, r), r * (3 * cols), 3 * cols) {
      RowInside(stride, rows, r);
      SameRow(s, t, img, RowStart(stride, rows, r), r * (3 * cols), 3 * cols);
    }
  }

  /* ---- Reading the image back ---- */

  /** The image in a block of three bytes a pixel, found as the rest of the system finds it: by the header,
      `FindDIBBits` and `WIDTHBYTES`. */
  function Decode(s: seq<Byte>): (img: seq<Byte>) {
    var w, h := DibWidth(s), DibHeight(s);
    ProductIsNat(h, 3 * w);
    seq(h * (3 * w), (k: nat) => Channel(s, w, h, k))
  }

  function Channel(s: seq<Byte>, w: nat, h: nat, k: nat): Byte {
    if w == 0 then 0
    else At(s, FindBits(s) + (h - 1 - k / (3 * w)) * WidthBytes(BitCount(s) * w) + Swap(k % (3 * w)))
  }

  /** A pixel, counted from the upper left corner, stands with its channels reversed in the row that is as far
      from the end of the block. */
  lemma PixelIs(s: seq<Byte>, img: seq<Byte>, cols: nat, rows: nat, x: nat, y: nat)
    requires Holds(s, img, cols, rows) && x < cols && y < rows && |img| == rows * (3 * cols)
    ensures var at, from := 40 + (rows - 1 - y) * WidthBytes(24 * cols) + 3 * x, y * (3 * cols) + 3 * x;
            At(s, at) == At(img, from + 2) && At(s, at + 1) == At(img, from + 1) && At(s, at + 2) == At(img, from)
  {
    StrideIsWidthBytes(cols);
    var start, row := RowStart(MemBytesPerScan(cols), rows, y), y * (3 * cols);
    assert RowCopied(s, img, start, row, 3 * cols);
    ChannelIn(s, img, start, row, 3 * cols, 3 * x);
    ChannelIn(s, img, start, row, 3 * cols, 3 * x + 1);
    ChannelIn(s, img, start, row, 3 * cols, 3 * x + 2);
    SwapIs(x);
  }

  lemma SwapIs(x: nat)
    ensures Swap(3 * x) == 3 * x + 2 && Swap(3 * x + 1) == 3 * x + 1 && Swap(3 * x + 2) == 3 * x
  {
  }

  lemma ChannelIn(s: seq<Byte>, img: seq<Byte>, at: int, from: int, width: nat, c: nat)
    requires RowCopied(s, img, at, from, width) && c < width
    ensures At(s, at + c) == At(img, from + Swap(c))
  {
  }

  /** The pixels begin right behind the header. */
  lemma BitsBehindHeader(s: seq<Byte>, cols: nat, rows: nat)
    requires HeaderSet(s, cols, rows)
    ensures FindBits(s) == HEADER && DibWidth(s) == cols && DibHeight(s) == rows && BitCount(s) == 24
  {
  }

  /** A number in four bytes. */
  function LongWord(v: nat): (bytes: seq<Byte>)
    requires v < 0x1_0000_0000
  {
    [v % 256, v / 256 % 256, v / 256 / 256 % 256, v / 256 / 256 / 256]
  }

  lemma LowByte(v: nat, low: nat, rest: nat)
    requires v == low + 256 * rest && low < 256
    ensures v % 256 == low && v / 256 == rest
  {
  }

  lemma BytesOfDword(s: seq<Byte>, at: nat, v: nat)
    requires ReadDword(s, at) == v && at + 4 <= |s|
    ensures v < 0x1_0000_0000 && s[at..at + 4] == LongWord(v)
  {
    var d: nat := s[at + 3];
    var c: nat := s[at + 2] + 256 * d;
    var b: nat := s[at + 1] + 256 * c;
    LowByte(v, s[at], b);
    LowByte(b, s[at + 1], c);
    LowByte(c, s[at + 2], d);
  }

  lemma BytesOfWord(s: seq<Byte>, at: nat, v: nat)
    requires ReadWord(s, at) == v && at + 2 <= |s|
    ensures v < 0x1_0000 && s[at..at + 2] == Word(v)
  {
  }

  /** The header as it stands in the block: the size of the header, width and height, one plane, 24 bits, no
      compression, and no colour table of a given size. */
  lemma HeaderBytes(s: seq<Byte>, cols: nat, rows: nat)
    requires HeaderSet(s, cols, rows) && |s| >= 40 && cols < 0x1_0000_0000 && rows < 0x1_0000_0000
    ensures s[..4] == [40, 0, 0, 0] && s[4..8] == LongWord(cols) && s[8..12] == LongWord(rows)
    ensures s[12..16] == [1, 0, 24, 0] && s[16..20] == [0, 0, 0, 0] && s[32..36] == [0, 0, 0, 0]
  {
    BytesOfDword(s, 0, 40);
    BytesOfDword(s, 4, cols);
    BytesOfDword(s, 8, rows);
    BytesOfWord(s, 12, 1);
    BytesOfWord(s, 14, 24);
    BytesOfDword(s, 16, 0);
    BytesOfDword(s, 32, 0);
    assert s[12..16] == s[12..14] + s[14..16];
  }

  lemma RowOf(k: nat, m: nat, rows: nat)
    requires m > 0 && k < rows * m
    ensures 0 <= k / m < rows && k == k / m * m + k % m
  {
    var q := k / m;
    if q >= rows {
      Monotone(rows, q, m);
    }
  }

  lemma ChannelAt(s: seq<Byte>, cols: nat, rows: nat, k: nat)
    requires HeaderSet(s, cols, rows) && cols > 0
    ensures Channel(s, cols, rows, k)
            == At(s, RowStart(MemBytesPerScan(cols), rows, k / (3 * cols)) + Swap(k % (3 * cols)))
  {
    BitsBehindHeader(s, cols, rows);
    StrideIsWidthBytes(cols);
  }

  lemma ChannelIs(s: seq<Byte>, img: seq<Byte>, cols: nat, rows: nat, k: nat)
    requires Holds(s, img, cols, rows) && |img| == rows * (3 * cols) && k < |img|
    ensures Channel(s, cols, rows, k) == img[k]
  {
    var m := 3 * cols;
    RowOf(k, m, rows);
    var r, c := k / m, k % m;
    ChannelAt(s, cols, rows, k);
    SwapTwice(c, cols);
    ChannelIn(s, img, RowStart(MemBytesPerScan(cols), rows, r), r * m, m, Swap(c));
  }

  /** Loading loses nothing: reading the block back gives the image, byte for byte. */
  lemma DecodeInvertsLoad(s: seq<Byte>, img: seq<Byte>, cols: nat, rows: nat)
    requires Holds(s, img, cols, rows) && |img| == rows * (3 * cols)
    ensures Decode(s) == img
  {
    BitsBehindHeader(s, cols, rows);
    forall k: nat | k < |img| ensures Channel(s, cols, rows, k) == img[k] {
      ChannelIs(s, img, cols, rows, k);
    }
  }
}
