/**
 Addresses of published keys and hashes, as the model prints them: the examples of BIP-173 and BIP-350 and
 two Base58Check addresses. They fix the generators, the constants, the regrouping and the version bytes.
 */
module AddressVectors {
  import opened Common
  import opened Bytes
  import opened Bitcoin
  import opened Numerals
  import opened Bech32Checksum
  import opened Bech32Words
  import Base58
  import Bech32
  import opened Address
  import opened AddressPieces

  // ---------- witness addresses ----------

  lemma WitnessVectorPiece0()
    ensures Piece(Word(0x3d5a5fd2), [117, 30, 118, 232, 25], [14, 20, 15, 7, 13, 26, 0, 25], 0, "w508d6qe", Word(0x2b1bcbce))
  {
    hide Piece;
    FiveBytes(117, 30, 118, 232, 25, 14, 20, 15, 7, 13, 26, 0, 25, "w508d6qe",
              Word(0x3d5a5fd2), Word(0x4ec3cb7), Word(0x3bd71899), Word(0x87e0c09), Word(0x116098dd),
              Word(0x11512870), Word(0x17673dc7), Word(0xc9f52e2), Word(0x2b1bcbce));
  }

  lemma WitnessVectorPiece1()
    ensures Piece(Word(0x2b1bcbce), [145, 150, 212, 84, 148], [18, 6, 11, 13, 8, 21, 4, 20], 0, "jxtdg4y5", Word(0x23a1ff4b))
  {
    hide Piece;
    FiveBytes(145, 150, 212, 84, 148, 18, 6, 11, 13, 8, 21, 4, 20, "jxtdg4y5",
              Word(0x2b1bcbce), Word(0x2ca65529), Word(0x62f5002), Word(0x18d0d994), Word(0x39f818aa),
              Word(0x36f45ddc), Word(0x14e73324), Word(0x7f4d934), Word(0x23a1ff4b));
  }

  lemma WitnessVectorPiece2()
    ensures Piece(Word(0x23a1ff4b), [28, 69, 209, 179, 163], [3, 17, 2, 29, 3, 12, 29, 3], 0, "r3zarvar", Word(0x2a387174))
  {
    hide Piece;
    FiveBytes(28, 69, 209, 179, 163, 3, 17, 2, 29, 3, 12, 29, 3, "r3zarvar",
              Word(0x23a1ff4b), Word(0x2541dc62), Word(0x247f608f), Word(0x3a8fd3c), Word(0xe75f02f),
              Word(0xd25c5c6), Word(0x1c492f5b), Word(0xc964f37), Word(0x2a387174));
  }

  lemma WitnessVectorPiece3()
    ensures Piece(Word(0x2a387174), [35, 241, 67, 59, 214], [4, 15, 24, 20, 6, 14, 30, 22], 0, "y0c5xw7k", Word(0x979c4ed))
  {
    hide Piece;
    FiveBytes(35, 241, 67, 59, 214, 4, 15, 24, 20, 6, 14, 30, 22, "y0c5xw7k",
              Word(0x2a387174), Word(0x8d1027f), Word(0x4815615), Word(0x367a4cd5), Word(0x5251205),
              Word(0x2f2cecb), Word(0x25338edc), Word(0x2a353740), Word(0x979c4ed));
  }

  lemma WitnessVectorStart()
    ensures AllFives(BC_FIVES + [0]) && RunWords(Word(1), BC_FIVES + [0]) == Word(0x3d5a5fd2)
  {
    hide RunWords;
    StartIs(0, Word(0x23), Word(0x463), Word(0x8c60), Word(0x118c02), Word(0x2318043), Word(0x3d5a5fd2));
  }

  lemma WitnessVectorClose()
    ensures Closes(Word(0x979c4ed), [12, 7, 9, 17] + [11] + [21], "v8f3t4", Version0)
  {
    hide Closes;
    SixClose(12, 7, 9, 17, 11, 21, "v8f3t4", Version0,
             Word(0x979c4ed), Word(0x31998456), Word(0x2466dba9), Word(0x9f99f7),
             Word(0x13f33ef1), Word(0x384fba44), Word(0x1));
  }

  lemma WitnessVectorProgram()
    ensures Piece(Word(0x3d5a5fd2),
            [117, 30, 118, 232, 25] + [145, 150, 212, 84, 148] + [28, 69, 209, 179, 163] + [35, 241, 67, 59, 214],
            [14, 20, 15, 7, 13, 26, 0, 25] + [18, 6, 11, 13, 8, 21, 4, 20] + [3, 17, 2, 29, 3, 12, 29, 3] +
            [4, 15, 24, 20, 6, 14, 30, 22],
            0, "w508d6qe" + "jxtdg4y5" + "r3zarvar" + "y0c5xw7k", Word(0x979c4ed))
  {
    hide *;
    var start := Word(0x3d5a5fd2);
    var b0: seq<byte>, f0: seq<nat>, t0 := [117, 30, 118, 232, 25], [14, 20, 15, 7, 13, 26, 0, 25], "w508d6qe";
    var b1: seq<byte>, f1: seq<nat>, t1 := [145, 150, 212, 84, 148], [18, 6, 11, 13, 8, 21, 4, 20], "jxtdg4y5";
    var b2: seq<byte>, f2: seq<nat>, t2 := [28, 69, 209, 179, 163], [3, 17, 2, 29, 3, 12, 29, 3], "r3zarvar";
    var b3: seq<byte>, f3: seq<nat>, t3 := [35, 241, 67, 59, 214], [4, 15, 24, 20, 6, 14, 30, 22], "y0c5xw7k";
    WitnessVectorPiece0();
    WitnessVectorPiece1();
    PieceJoin(start, b0, f0, t0,
              Word(0x2b1bcbce), b1, f1, 0, t1, Word(0x23a1ff4b));
    WitnessVectorPiece2();
    PieceJoin(start, b0 + b1, f0 + f1, t0 + t1,
              Word(0x23a1ff4b), b2, f2, 0, t2, Word(0x2a387174));
    WitnessVectorPiece3();
    PieceJoin(start, b0 + b1 + b2, f0 + f1 + f2, t0 + t1 + t2,
              Word(0x2a387174), b3, f3, 0, t3, Word(0x979c4ed));
  }

  // The P2WPKH address of BIP-173, of hash 751e76e8199196d454941c45d1b3a323f1433bd6.
  lemma WitnessVector(digest: Base58.Digest)
    ensures EncodeAddress(digest, KindSegwitV0,
            [117, 30, 118, 232, 25] + [145, 150, 212, 84, 148] + [28, 69, 209, 179, 163] + [35, 241, 67, 59, 214])
         == "bc1q" + ("w508d6qe" + "jxtdg4y5" + "r3zarvar" + "y0c5xw7k") + "v8f3t4"
  {
    hide Piece, Closes, WitnessData, Bech32.Encode;
    WitnessVectorStart();
    WitnessVectorProgram();
    WitnessVectorClose();
    WitnessText(0,
            [117, 30, 118, 232, 25] + [145, 150, 212, 84, 148] + [28, 69, 209, 179, 163] + [35, 241, 67, 59, 214],
            [14, 20, 15, 7, 13, 26, 0, 25] + [18, 6, 11, 13, 8, 21, 4, 20] + [3, 17, 2, 29, 3, 12, 29, 3] +
            [4, 15, 24, 20, 6, 14, 30, 22],
            0, "w508d6qe" + "jxtdg4y5" + "r3zarvar" + "y0c5xw7k",
            [12, 7, 9, 17] + [11] + [21], "v8f3t4", Version0, Word(0x3d5a5fd2), Word(0x979c4ed));
    assert "bc1" + [Bech32.CharOf(0)] == "bc1q";
  }

  lemma TaprootVectorPiece0()
    ensures Piece(Word(0x3d5a5fd3), [121, 190, 102, 126, 249], [15, 6, 31, 6, 12, 31, 23, 25], 0, "0xlxvlhe", Word(0x1cbc87ae))
  {
    hide Piece;
    FiveBytes(121, 190, 102, 126, 249, 15, 6, 31, 6, 12, 31, 23, 25, "0xlxvlhe",
              Word(0x3d5a5fd3), Word(0x4ec3c96), Word(0x3bd71cab), Word(0x87e8a59), Word(0x117052dc),
              Word(0x13486851), Word(0x2f256e50), Word(0xd226881), Word(0x1cbc87ae));
  }

  lemma TaprootVectorPiece1()
    ensures Piece(Word(0x1cbc87ae), [220, 187, 172, 85, 160], [27, 18, 29, 26, 24, 21, 13, 0], 0, "mja6c4dq", Word(0x2e7ac506))
  {
    hide Piece;
    FiveBytes(220, 187, 172, 85, 160, 27, 18, 29, 26, 24, 21, 13, 0, "mja6c4dq",
              Word(0x1cbc87ae), Word(0x12235191), Word(0x242565d), Word(0x33209c0f), Word(0x82f8726),
              Word(0x1b51fd22), Word(0x32b6d9c0), Word(0x3ae73ed1), Word(0x2e7ac506));
  }

  lemma TaprootVectorPiece2()
    ensures Piece(Word(0x2e7ac506), [98, 149, 206, 135, 11], [12, 10, 10, 28, 29, 1, 24, 11], 0, "v22uapct", Word(0x20c13389))
  {
    hide Piece;
    FiveBytes(98, 149, 206, 135, 11, 12, 10, 10, 28, 29, 1, 24, 11, "v22uapct",
              Word(0x2e7ac506), Word(0x26d7025a), Word(0x2dcef026), Word(0x2b3bf1ee), Word(0x28a11127),
              Word(0x20975fb4), Word(0x38ff9432), Word(0x1605cecc), Word(0x20c13389));
  }

  lemma TaprootVectorPiece3()
    ensures Piece(Word(0x20c13389), [7, 2, 155, 252, 219], [0, 28, 1, 9, 23, 31, 6, 27], 0, "qupfhlxm", Word(0x98292ff))
  {
    hide Piece;
    FiveBytes(7, 2, 155, 252, 219, 0, 28, 1, 9, 23, 31, 6, 27, "qupfhlxm",
              Word(0x20c13389), Word(0x32321393), Word(0x2a7e74a0), Word(0x11b8fa), Word(0x2371f49),
              Word(0x3d89be85), Word(0x1e901646), Word(0x2cdb3b3e), Word(0x98292ff));
  }

  lemma TaprootVectorPiece4()
    ensures Piece(Word(0x98292ff), [45, 206, 40, 217, 89], [5, 23, 7, 2, 17, 22, 10, 25], 0, "9h8z3k2e", Word(0xa95576c))
  {
    hide Piece;
    FiveBytes(45, 206, 40, 217, 89, 5, 23, 7, 2, 17, 22, 10, 25, "9h8z3k2e",
              Word(0x98292ff), Word(0x2ef3461f), Word(0x37e76161), Word(0x3680a496), Word(0x1a781a73),
              Word(0x178a33e4), Word(0x113e9694), Word(0x1a90e157), Word(0xa95576c));
  }

  lemma TaprootVectorPiece5()
    ensures Piece(Word(0xa95576c), [242, 129, 91, 22, 248], [30, 10, 0, 21, 22, 5, 23, 24], 0, "72q4k9hc", Word(0x1042efd5))
  {
    hide Piece;
    FiveBytes(242, 129, 91, 22, 248, 30, 10, 0, 21, 22, 5, 23, 24, "72q4k9hc",
              Word(0xa95576c), Word(0x3761a3d6), Word(0x2658f27b), Word(0x3c30f40c), Word(0x29b9476c),
              Word(0x39d96df), Word(0x8d88c57), Word(0x5b0930d), Word(0x1042efd5));
  }

  lemma TaprootVectorPiece6()
    ensures Piece(Word(0x1042efd5), [23, 152], [2, 30, 12, 0], 4, "z7vq", Word(0x192c5247))
  {
    hide Piece;
    TwoBytes(23, 152, 2, 30, 12, 0, "z7vq",
             Word(0x1042efd5), Word(0x351fc97f), Word(0x12fff0fd), Word(0x19d67bc3), Word(0x192c5247));
  }

  lemma TaprootVectorStart()
    ensures AllFives(BC_FIVES + [1]) && RunWords(Word(1), BC_FIVES + [1]) == Word(0x3d5a5fd3)
  {
    hide RunWords;
    StartIs(1, Word(0x23), Word(0x463), Word(0x8c60), Word(0x118c02), Word(0x2318043), Word(0x3d5a5fd3));
  }

  lemma TaprootVectorClose()
    ensures Closes(Word(0x192c5247), [2, 22, 20, 18] + [18] + [15], "zk5jj0", VersionM)
  {
    hide Closes;
    SixClose(2, 22, 20, 18, 18, 15, "zk5jj0", VersionM,
             Word(0x192c5247), Word(0x66962c5), Word(0x10168169), Word(0x3f921ee9),
             Word(0x268e4c79), Word(0x26e7345e), Word(0x2bc830a3));
  }

  lemma TaprootVectorProgram()
    ensures Piece(Word(0x3d5a5fd3),
            [121, 190, 102, 126, 249] + [220, 187, 172, 85, 160] + [98, 149, 206, 135, 11] + [7, 2, 155, 252, 219] +
            [45, 206, 40, 217, 89] + [242, 129, 91, 22, 248] + [23, 152],
            [15, 6, 31, 6, 12, 31, 23, 25] + [27, 18, 29, 26, 24, 21, 13, 0] + [12, 10, 10, 28, 29, 1, 24, 11] +
            [0, 28, 1, 9, 23, 31, 6, 27] + [5, 23, 7, 2, 17, 22, 10, 25] + [30, 10, 0, 21, 22, 5, 23, 24] +
            [2, 30, 12, 0],
            4, "0xlxvlhe" + "mja6c4dq" + "v22uapct" + "qupfhlxm" + "9h8z3k2e" + "72q4k9hc" + "z7vq", Word(0x192c5247))
  {
    hide *;
    var start := Word(0x3d5a5fd3);
    var b0: seq<byte>, f0: seq<nat>, t0 := [121, 190, 102, 126, 249], [15, 6, 31, 6, 12, 31, 23, 25], "0xlxvlhe";
    var b1: seq<byte>, f1: seq<nat>, t1 := [220, 187, 172, 85, 160], [27, 18, 29, 26, 24, 21, 13, 0], "mja6c4dq";
    var b2: seq<byte>, f2: seq<nat>, t2 := [98, 149, 206, 135, 11], [12, 10, 10, 28, 29, 1, 24, 11], "v22uapct";
    var b3: seq<byte>, f3: seq<nat>, t3 := [7, 2, 155, 252, 219], [0, 28, 1, 9, 23, 31, 6, 27], "qupfhlxm";
    var b4: seq<byte>, f4: seq<nat>, t4 := [45, 206, 40, 217, 89], [5, 23, 7, 2, 17, 22, 10, 25], "9h8z3k2e";
    var b5: seq<byte>, f5: seq<nat>, t5 := [242, 129, 91, 22, 248], [30, 10, 0, 21, 22, 5, 23, 24], "72q4k9hc";
    var b6: seq<byte>, f6: seq<nat>, t6 := [23, 152], [2, 30, 12, 0], "z7vq";
    TaprootVectorPiece0();
    TaprootVectorPiece1();
    PieceJoin(start, b0, f0, t0,
              Word(0x1cbc87ae), b1, f1, 0, t1, Word(0x2e7ac506));
    TaprootVectorPiece2();
    PieceJoin(start, b0 + b1, f0 + f1, t0 + t1,
              Word(0x2e7ac506), b2, f2, 0, t2, Word(0x20c13389));
    TaprootVectorPiece3();
    PieceJoin(start, b0 + b1 + b2, f0 + f1 + f2, t0 + t1 + t2,
              Word(0x20c13389), b3, f3, 0, t3, Word(0x98292ff));
    TaprootVectorPiece4();
    PieceJoin(start, b0 + b1 + b2 + b3, f0 + f1 + f2 + f3, t0 + t1 + t2 + t3,
              Word(0x98292ff), b4, f4, 0, t4, Word(0xa95576c));
    TaprootVectorPiece5();
    PieceJoin(start, b0 + b1 + b2 + b3 + b4, f0 + f1 + f2 + f3 + f4, t0 + t1 + t2 + t3 + t4,
              Word(0xa95576c), b5, f5, 0, t5, Word(0x1042efd5));
    TaprootVectorPiece6();
    PieceJoin(start, b0 + b1 + b2 + b3 + b4 + b5, f0 + f1 + f2 + f3 + f4 + f5, t0 + t1 + t2 + t3 + t4 + t5,
              Word(0x1042efd5), b6, f6, 4, t6, Word(0x192c5247));
  }

  // The P2TR address of BIP-350, of key 79be667ef9dcbbac55a06295ce870b07029bfcdb2dce28d959f2815b16f81798.
  lemma TaprootVector(digest: Base58.Digest)
    ensures EncodeAddress(digest, KindTaprootV1,
            [121, 190, 102, 126, 249] + [220, 187, 172, 85, 160] + [98, 149, 206, 135, 11] + [7, 2, 155, 252, 219] +
            [45, 206, 40, 217, 89] + [242, 129, 91, 22, 248] + [23, 152])
         == "bc1p" + ("0xlxvlhe" + "mja6c4dq" + "v22uapct" + "qupfhlxm" + "9h8z3k2e" + "72q4k9hc" + "z7vq") + "zk5jj0"
  {
    hide Piece, Closes, WitnessData, Bech32.Encode;
    TaprootVectorStart();
    TaprootVectorProgram();
    TaprootVectorClose();
    WitnessText(1,
            [121, 190, 102, 126, 249] + [220, 187, 172, 85, 160] + [98, 149, 206, 135, 11] + [7, 2, 155, 252, 219] +
            [45, 206, 40, 217, 89] + [242, 129, 91, 22, 248] + [23, 152],
            [15, 6, 31, 6, 12, 31, 23, 25] + [27, 18, 29, 26, 24, 21, 13, 0] + [12, 10, 10, 28, 29, 1, 24, 11] +
            [0, 28, 1, 9, 23, 31, 6, 27] + [5, 23, 7, 2, 17, 22, 10, 25] + [30, 10, 0, 21, 22, 5, 23, 24] +
            [2, 30, 12, 0],
            4, "0xlxvlhe" + "mja6c4dq" + "v22uapct" + "qupfhlxm" + "9h8z3k2e" + "72q4k9hc" + "z7vq",
            [2, 22, 20, 18] + [18] + [15], "zk5jj0", VersionM, Word(0x3d5a5fd3), Word(0x192c5247));
    assert "bc1" + [Bech32.CharOf(1)] == "bc1p";
  }

  // The parser reads both strings back.
  lemma VectorsDecode(digest: Base58.Digest)
    ensures DecodeFundedAddressForLoad(digest, "bc1q" + ("w508d6qe" + "jxtdg4y5" + "r3zarvar" + "y0c5xw7k") + "v8f3t4")
         == Some((KindSegwitV0,
                  [117, 30, 118, 232, 25] + [145, 150, 212, 84, 148] + [28, 69, 209, 179, 163] + [35, 241, 67, 59, 214]))
    ensures DecodeFundedAddressForLoad(digest,
              "bc1p" + ("0xlxvlhe" + "mja6c4dq" + "v22uapct" + "qupfhlxm" + "9h8z3k2e" + "72q4k9hc" + "z7vq") + "zk5jj0")
         == Some((KindTaprootV1,
                  [121, 190, 102, 126, 249] + [220, 187, 172, 85, 160] + [98, 149, 206, 135, 11] + [7, 2, 155, 252, 219] +
                  [45, 206, 40, 217, 89] + [242, 129, 91, 22, 248] + [23, 152]))
  {
    hide DecodeFundedAddressForLoad, EncodeAddress;
    WitnessVector(digest);
    TaprootVector(digest);
    EncodedIsDecoded(digest, KindSegwitV0,
                     [117, 30, 118, 232, 25] + [145, 150, 212, 84, 148] + [28, 69, 209, 179, 163] + [35, 241, 67, 59, 214]);
    EncodedIsDecoded(digest, KindTaprootV1,
                     [121, 190, 102, 126, 249] + [220, 187, 172, 85, 160] + [98, 149, 206, 135, 11] + [7, 2, 155, 252, 219] +
                     [45, 206, 40, 217, 89] + [242, 129, 91, 22, 248] + [23, 152]);
  }

  // ---------- Base58Check addresses ----------

  lemma PubKeyHashVectorHead()
    ensures Numeral58([9], 9, "A")
  {
    OneChar(9);
  }

  lemma PubKeyHashVectorNumeral()
    ensures Numeral58([9] + [0, 57, 22, 0] + [37, 22, 4, 23] + [15, 37, 38, 41] + [1, 12, 20, 22] + [26, 38, 26, 19] +
                      [4, 25, 19, 44] + [53, 6, 12, 41] + [53, 38, 21, 33],
                      2425272852617787204149748718533766320022242666561985543571,
                      "A" + "1zP1" + "eP5Q" + "Gefi" + "2DMP" + "TfTL" + "5SLm" + "v7Di" + "vfNa")
  {
    hide Numeral58;
    PubKeyHashVectorHead();
    var d0: seq<nat>, t0 := [9], "A";
    Extend(d0, 9, t0, 0, 57, 22, 0,
           102041488, "1zP1");
    var d1, t1 := d0 + [0, 57, 22, 0], t0 + "1zP1";
    Extend(d1, 102041488, t1, 37, 22, 4, 23,
           1154752098079455, "eP5Q");
    var d2, t2 := d1 + [37, 22, 4, 23], t1 + "eP5Q";
    Extend(d2, 1154752098079455, t2, 15, 37, 38, 41,
           13067747498907763243073, "Gefi");
    var d3, t3 := d2 + [15, 37, 38, 41], t2 + "Gefi";
    Extend(d3, 13067747498907763243073, t3, 1, 12, 20, 22,
           147881112300399707109182868870, "2DMP");
    var d4, t4 := d3 + [1, 12, 20, 22], t3 + "2DMP";
    Extend(d4, 147881112300399707109182868870, t4, 26, 38, 26, 19,
           1673496015823024083902239498841081791, "TfTL");
    var d5, t5 := d4 + [26, 38, 26, 19], t4 + "TfTL";
    Extend(d5, 1673496015823024083902239498841081791, t5, 4, 25, 19, 44,
           18938110969077188753383357679677106724390030, "5SLm");
    var d6, t6 := d5 + [4, 25, 19, 44], t5 + "5SLm";
    Extend(d6, 18938110969077188753383357679677106724390030, t6, 53, 6, 12, 41,
           214313057029118130218907753648635259538132887296737, "v7Di");
    var d7, t7 := d6 + [53, 6, 12, 41], t6 + "v7Di";
    Extend(d7, 214313057029118130218907753648635259538132887296737, t7, 53, 38, 21, 33,
           2425272852617787204149748718533766320022242666561985543571, "vfNa");
  }

  lemma PubKeyHashVectorValue()
    ensures FromDigits(
           [0] + [98, 233, 7, 177] + [92, 191, 39, 213] + [66, 83, 153, 235] + [246, 240, 251, 80] +
           [235, 184, 143, 24] + [194, 155, 125, 147], 256)
         == 2425272852617787204149748718533766320022242666561985543571
  {
    hide FromDigits;
    OneDigit(0, 256);
    var b0: seq<byte> := [0];
    MoreBytes(b0, 0, 98, 233, 7, 177,
              1659439025);
    var b1 := b0 + [98, 233, 7, 177];
    MoreBytes(b1, 1659439025, 92, 191, 39, 213,
              7127236343637157845);
    var b2 := b1 + [92, 191, 39, 213];
    MoreBytes(b2, 7127236343637157845, 66, 83, 153, 235,
              30611247006784210635777612267);
    var b3 := b2 + [66, 83, 153, 235];
    MoreBytes(b3, 30611247006784210635777612267, 246, 240, 251, 80,
              131474304783916074809840212219876408144);
    var b4 := b3 + [246, 240, 251, 80];
    MoreBytes(b4, 131474304783916074809840212219876408144, 235, 184, 143, 24,
              564677839311255888116953130470068734144382799640);
    var b5 := b4 + [235, 184, 143, 24];
    MoreBytes(b5, 564677839311255888116953130470068734144382799640, 194, 155, 125, 147,
              2425272852617787204149748718533766320022242666561985543571);
  }

  lemma PubKeyHashVectorOnes()
    ensures var payload: seq<byte> :=
           [98, 233, 7, 177] + [92, 191, 39, 213] + [66, 83, 153, 235] + [246, 240, 251, 80] +
           [235, 184, 143, 24];
      [0] + payload + [194, 155, 125, 147] ==
           [0] + [98, 233, 7, 177] + [92, 191, 39, 213] + [66, 83, 153, 235] + [246, 240, 251, 80] +
           [235, 184, 143, 24] + [194, 155, 125, 147]
    ensures Base58.LeadingZeros(
           [0] + [98, 233, 7, 177] + [92, 191, 39, 213] + [66, 83, 153, 235] + [246, 240, 251, 80] +
           [235, 184, 143, 24] + [194, 155, 125, 147]) == 1
    ensures Base58.Chars(Zeros(1)) == "1"
  {
    OneChar(0);
    assert Zeros(1) == [0];
  }

  // The P2PKH address of hash 62e907b15cbf27d5425399ebf6f0fb50ebb88f18, whose checksum is c29b7d93.
  lemma PubKeyHashVector(digest: Base58.Digest)
    requires digest([0] + (
           [98, 233, 7, 177] + [92, 191, 39, 213] + [66, 83, 153, 235] + [246, 240, 251, 80] +
           [235, 184, 143, 24])) == [194, 155, 125, 147]
    ensures EncodeAddress(digest, KindLegacy,
           [98, 233, 7, 177] + [92, 191, 39, 213] + [66, 83, 153, 235] + [246, 240, 251, 80] +
           [235, 184, 143, 24])
         == "1" + "A" + "1zP1" + "eP5Q" + "Gefi" + "2DMP" + "TfTL" + "5SLm" + "v7Di" + "vfNa"
  {
    hide FromDigits, Numeral58, Base58.Chars, Base58.CheckEncode, Base58.LeadingZeros, Zeros;
    var payload: seq<byte> :=
           [98, 233, 7, 177] + [92, 191, 39, 213] + [66, 83, 153, 235] + [246, 240, 251, 80] +
           [235, 184, 143, 24];
    var sum: Base58.Checksum := [194, 155, 125, 147];
    PubKeyHashVectorNumeral();
    PubKeyHashVectorValue();
    PubKeyHashVectorOnes();
    CheckText(digest, payload, 0, sum, 1,
              [9] + [0, 57, 22, 0] + [37, 22, 4, 23] + [15, 37, 38, 41] + [1, 12, 20, 22] + [26, 38, 26, 19] +
              [4, 25, 19, 44] + [53, 6, 12, 41] + [53, 38, 21, 33],
              2425272852617787204149748718533766320022242666561985543571,
              "A" + "1zP1" + "eP5Q" + "Gefi" + "2DMP" + "TfTL" + "5SLm" + "v7Di" + "vfNa");
  }

  lemma ScriptHashVectorHead()
    ensures Numeral58([2, 17], 133, "3J")
  {
    OneChar(2);
  }

  lemma ScriptHashVectorNumeral()
    ensures Numeral58([2, 17] + [8, 7, 51, 0] + [29, 47, 13, 32] + [6, 2, 11, 21] + [44, 23, 53, 41] + [37, 35, 49, 45] +
                      [56, 41, 29, 49] + [45, 48, 24, 40] + [29, 21, 19, 56],
                      35810075627016600505629403573885762136870990069967794011138,
                      "3J" + "98t1" + "WpEZ" + "73CN" + "mQvi" + "ecrn" + "yiWr" + "nqRh" + "WNLy")
  {
    hide Numeral58;
    ScriptHashVectorHead();
    var d0: seq<nat>, t0 := [2, 17], "3J";
    Extend(d0, 133, t0, 8, 7, 51, 0,
           1506681370, "98t1");
    var d1, t1 := d0 + [8, 7, 51, 0], t0 + "98t1";
    Extend(d1, 1506681370, t1, 29, 47, 13, 32,
           17050353702696662, "WpEZ");
    var d2, t2 := d1 + [29, 47, 13, 32], t1 + "WpEZ";
    Extend(d2, 17050353702696662, t2, 6, 2, 11, 21,
           192950259475151965914411, "73CN");
    var d3, t3 := d2 + [6, 2, 11, 21], t2 + "73CN";
    Extend(d3, 192950259475151965914411, t3, 44, 23, 53, 41,
           2183520839549519321662577089271, "mQvi");
    var d4, t4 := d3 + [44, 23, 53, 41], t3 + "mQvi";
    Extend(d4, 2183520839549519321662577089271, t4, 37, 35, 49, 45,
           24709804846678777205517266980434254187, "ecrn");
    var d5, t5 := d4 + [37, 35, 49, 45], t4 + "ecrn";
    Extend(d5, 24709804846678777205517266980434254187, t5, 56, 41, 29, 49,
           279628407708220995531127329715016315781234679, "yiWr");
    var d6, t6 := d5 + [56, 41, 29, 49], t5 + "yiWr";
    Extend(d6, 279628407708220995531127329715016315781234679, t6, 45, 48, 24, 40,
           3164413757316452063044020302210663277473079128907728, "nqRh");
    var d7, t7 := d6 + [45, 48, 24, 40], t6 + "nqRh";
    Extend(d7, 3164413757316452063044020302210663277473079128907728, t7, 29, 21, 19, 56,
           35810075627016600505629403573885762136870990069967794011138, "WNLy");
  }

  lemma ScriptHashVectorValue()
    ensures FromDigits(
           [5] + [180, 114, 162, 102] + [208, 189, 137, 193] + [55, 6, 164, 19] + [44, 207, 177, 111] +
           [124, 59, 159, 203] + [129, 252, 252, 2], 256)
         == 35810075627016600505629403573885762136870990069967794011138
  {
    hide FromDigits;
    OneDigit(5, 256);
    var b0: seq<byte> := [5];
    MoreBytes(b0, 5, 180, 114, 162, 102,
              24502248038);
    var b1 := b0 + [180, 114, 162, 102];
    MoreBytes(b1, 24502248038, 208, 189, 137, 193,
              105236354005192247745);
    var b2 := b1 + [208, 189, 137, 193];
    MoreBytes(b2, 105236354005192247745, 55, 6, 164, 19,
              451986698802579318258427929619);
    var b3 := b2 + [55, 6, 164, 19];
    MoreBytes(b3, 451986698802579318258427929619, 44, 207, 177, 111,
              1941268089584080532365923634087346549103);
    var b4 := b3 + [44, 207, 177, 111];
    MoreBytes(b4, 1941268089584080532365923634087346549103, 124, 59, 159, 203,
              8337682957532024128741911513238624235817927417803);
    var b5 := b4 + [124, 59, 159, 203];
    MoreBytes(b5, 8337682957532024128741911513238624235817927417803, 129, 252, 252, 2,
              35810075627016600505629403573885762136870990069967794011138);
  }

  lemma ScriptHashVectorOnes()
    ensures var payload: seq<byte> :=
           [180, 114, 162, 102] + [208, 189, 137, 193] + [55, 6, 164, 19] + [44, 207, 177, 111] +
           [124, 59, 159, 203];
      [5] + payload + [129, 252, 252, 2] ==
           [5] + [180, 114, 162, 102] + [208, 189, 137, 193] + [55, 6, 164, 19] + [44, 207, 177, 111] +
           [124, 59, 159, 203] + [129, 252, 252, 2]
    ensures Base58.LeadingZeros(
           [5] + [180, 114, 162, 102] + [208, 189, 137, 193] + [55, 6, 164, 19] + [44, 207, 177, 111] +
           [124, 59, 159, 203] + [129, 252, 252, 2]) == 0
    ensures Base58.Chars(Zeros(0)) == ""
  {
    NoChars();
    assert Zeros(0) == [];
  }

  // The P2SH address of hash b472a266d0bd89c13706a4132ccfb16f7c3b9fcb, whose checksum is 81fcfc02.
  lemma ScriptHashVector(digest: Base58.Digest)
    requires digest([5] + (
           [180, 114, 162, 102] + [208, 189, 137, 193] + [55, 6, 164, 19] + [44, 207, 177, 111] +
           [124, 59, 159, 203])) == [129, 252, 252, 2]
    ensures EncodeAddress(digest, KindP2SH,
           [180, 114, 162, 102] + [208, 189, 137, 193] + [55, 6, 164, 19] + [44, 207, 177, 111] +
           [124, 59, 159, 203])
         == "3J" + "98t1" + "WpEZ" + "73CN" + "mQvi" + "ecrn" + "yiWr" + "nqRh" + "WNLy"
  {
    hide FromDigits, Numeral58, Base58.Chars, Base58.CheckEncode, Base58.LeadingZeros, Zeros;
    var payload: seq<byte> :=
           [180, 114, 162, 102] + [208, 189, 137, 193] + [55, 6, 164, 19] + [44, 207, 177, 111] +
           [124, 59, 159, 203];
    var sum: Base58.Checksum := [129, 252, 252, 2];
    ScriptHashVectorNumeral();
    ScriptHashVectorValue();
    ScriptHashVectorOnes();
    CheckText(digest, payload, 5, sum, 0,
              [2, 17] + [8, 7, 51, 0] + [29, 47, 13, 32] + [6, 2, 11, 21] + [44, 23, 53, 41] + [37, 35, 49, 45] +
              [56, 41, 29, 49] + [45, 48, 24, 40] + [29, 21, 19, 56],
              35810075627016600505629403573885762136870990069967794011138,
              "3J" + "98t1" + "WpEZ" + "73CN" + "mQvi" + "ecrn" + "yiWr" + "nqRh" + "WNLy");
  }
}
