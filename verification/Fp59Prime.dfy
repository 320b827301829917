/** The modulus p = 2^59 - 2^28 + 1 is prime, and 3 generates its multiplicative group. With
    q = 2^31 - 1, p - 1 = 2^28 q; q is prime because 7 generates modulo q. */
module Fp59Prime {
  import opened Bits
  import opened Primes

  const P: nat := 576460752034988033
  const Q: nat := 2147483647

  // ---- the primes dividing q - 1 ----

  lemma SmallPrimes()
    ensures Prime(2) && Prime(3) && Prime(7) && Prime(11) && Prime(31) && Prime(151) && Prime(331)
  {
    PrimeBySqrt(7, 3);
    PrimeBySqrt(11, 4);
    PrimeBySqrt(31, 6);
    Prime151();
    Prime331();
  }

  lemma Prime151()
    ensures Prime(151)
  {
    PrimeBySqrt(151, 13);
  }

  lemma Prime331()
    ensures Prime(331)
  {
    PrimeBySqrt(331, 19);
  }

  // A divisor of q - 1 other than 1 is a multiple of one of them.
  lemma FactorOfQ(s: nat)
    requires s >= 2 && (Q - 1) % s == 0
    ensures s % 2 == 0 || s % 3 == 0 || s % 7 == 0 || s % 11 == 0 || s % 31 == 0 || s % 151 == 0 || s % 331 == 0
  {
    SmallPrimes();
    hide Prime;
    if s % 2 != 0 && s % 3 != 0 && s % 7 != 0 && s % 11 != 0 && s % 31 != 0 && s % 151 != 0 && s % 331 != 0 {
      Gauss(s, 2, 1073741823);
      Gauss(s, 3, 357913941);
      Gauss(s, 3, 119304647);
      Gauss(s, 7, 17043521);
      Gauss(s, 11, 1549411);
      Gauss(s, 31, 49981);
      Gauss(s, 151, 331);
      Gauss(s, 331, 1);
      ModOf(1, s, 0, 1);
    }
  }

  // ---- powers of 7 modulo q, and of 3 modulo p ----

  lemma PowerQ2()
    ensures PowMod(7, 1073741823, Q) == 2147483646
  {
    hide PowMod;
    PowModZero(7, Q);
    Horner4(7, 0, 1, 0, 1, 0, 1, 1, 7, 1, 343, Q);
    Horner4(7, 3, 343, 1, 823543, 1, 1622650073, 1, 1143995257, 1, 343201429, Q);
    Horner4(7, 63, 343201429, 1, 992518913, 1, 1646035001, 1, 591463338, 1, 782353259, Q);
    Horner4(7, 1023, 782353259, 1, 1329249609, 1, 1887985652, 1, 1460376695, 1, 1990648651, Q);
    Horner4(7, 16383, 1990648651, 1, 1734770806, 1, 1244035718, 1, 765703075, 1, 1363469869, Q);
    Horner4(7, 262143, 1363469869, 1, 1597744691, 1, 433311905, 1, 1248782549, 1, 379819458, Q);
    Horner4(7, 4194303, 379819458, 1, 1553672423, 1, 1892905794, 1, 1526357038, 1, 1508215062, Q);
    Horner4(7, 67108863, 1508215062, 1, 424903933, 1, 286198620, 1, 1827226863, 1, 2147483646, Q);
  }

  lemma PowerQ3()
    ensures PowMod(7, 715827882, Q) == 1513477735
  {
    hide PowMod;
    PowModZero(7, Q);
    Horner4(7, 0, 1, 0, 1, 0, 1, 1, 7, 0, 49, Q);
    Horner4(7, 2, 49, 1, 16807, 0, 282475249, 1, 452154665, 0, 567732671, Q);
    Horner4(7, 42, 567732671, 1, 1441282327, 0, 101929267, 1, 1363931856, 0, 2144351583, Q);
    Horner4(7, 682, 2144351583, 1, 837204200, 0, 702715827, 1, 394635849, 0, 57777560, Q);
    Horner4(7, 10922, 57777560, 1, 2031128932, 0, 2039727126, 1, 814620268, 0, 1440264748, Q);
    Horner4(7, 174762, 1440264748, 1, 651109724, 0, 1275070073, 1, 621115943, 0, 1350851787, Q);
    Horner4(7, 2796202, 1350851787, 1, 1197713631, 0, 1706053424, 1, 787934656, 0, 1527277373, Q);
    Horner4(7, 44739242, 1527277373, 1, 626042666, 0, 373859930, 1, 1513477736, 0, 1513477735, Q);
  }

  lemma PowerQ7()
    ensures PowMod(7, 306783378, Q) == 1205362885
  {
    hide PowMod;
    PowModZero(7, Q);
    Horner4(7, 0, 1, 0, 1, 0, 1, 0, 1, 1, 7, Q);
    Horner4(7, 1, 7, 0, 49, 0, 2401, 1, 40353607, 0, 370710466, Q);
    Horner4(7, 18, 370710466, 0, 707192808, 1, 1843043289, 0, 1958495418, 0, 2115610783, Q);
    Horner4(7, 292, 2115610783, 1, 343098142, 0, 298918984, 0, 1429157787, 1, 1338456531, Q);
    Horner4(7, 4681, 1338456531, 0, 1590871391, 0, 1917208117, 1, 2144369227, 0, 1575786548, Q);
    Horner4(7, 74898, 1575786548, 0, 122244366, 1, 522534449, 0, 1859770966, 0, 671250160, Q);
    Horner4(7, 1198372, 671250160, 1, 1553575855, 0, 45899444, 0, 192390844, 1, 718502392, Q);
    Horner4(7, 19173961, 718502392, 0, 926975407, 0, 1730732297, 1, 610312904, 0, 1205362885, Q);
  }

  lemma PowerQ11()
    ensures PowMod(7, 195225786, Q) == 1969212174
  {
    hide PowMod;
    PowModZero(7, Q);
    Horner4(7, 0, 1, 1, 7, 0, 49, 1, 16807, 1, 1977326743, Q);
    Horner4(7, 11, 1977326743, 1, 680742115, 0, 1621510873, 1, 1375415753, 0, 920132265, Q);
    Horner4(7, 186, 920132265, 0, 1668712169, 0, 690914947, 1, 1728637651, 0, 562480244, Q);
    Horner4(7, 2978, 562480244, 1, 1456807490, 1, 304813979, 1, 935838453, 0, 195895749, Q);
    Horner4(7, 47662, 195895749, 1, 644964109, 0, 1951423362, 0, 195528275, 0, 701801792, Q);
    Horner4(7, 762600, 701801792, 1, 677522921, 0, 190670353, 1, 2019628993, 1, 968366044, Q);
    Horner4(7, 12201611, 968366044, 1, 595711377, 0, 505815198, 1, 1327797538, 0, 1969212174, Q);
  }

  lemma PowerQ31()
    ensures PowMod(7, 69273666, Q) == 512
  {
    hide PowMod;
    PowModZero(7, Q);
    Horner4(7, 0, 1, 0, 1, 1, 7, 0, 49, 0, 2401, Q);
    Horner4(7, 4, 2401, 0, 5764801, 0, 621132276, 1, 221192771, 0, 1753973209, Q);
    Horner4(7, 66, 1753973209, 0, 1759884542, 0, 72945244, 0, 1558970347, 1, 556445981, Q);
    Horner4(7, 1057, 556445981, 0, 447033049, 0, 98083876, 0, 1312981133, 0, 622492898, Q);
    Horner4(7, 16912, 622492898, 1, 1393777757, 0, 1527519359, 0, 1493385978, 0, 893936989, Q);
    Horner4(7, 270600, 893936989, 0, 1151377580, 1, 1148475122, 0, 494109411, 0, 1336153301, Q);
    Horner4(7, 4329604, 1336153301, 0, 1512527173, 0, 1525432472, 1, 2146435071, 0, 512, Q);
  }

  lemma PowerQ151()
    ensures PowMod(7, 14221746, Q) == 535044134
  {
    hide PowMod;
    PowModZero(7, Q);
    Horner4(7, 0, 1, 1, 7, 1, 343, 0, 117649, 1, 252246292, Q);
    Horner4(7, 13, 252246292, 1, 226762748, 0, 424435441, 0, 424534408, 1, 881240612, Q);
    Horner4(7, 217, 881240612, 0, 1146211578, 0, 1321894452, 0, 482929059, 0, 308494172, Q);
    Horner4(7, 3472, 308494172, 0, 58367958, 0, 1071365083, 0, 1550283642, 1, 80158273, Q);
    Horner4(7, 55553, 80158273, 1, 296267012, 0, 345904204, 1, 590536941, 1, 1428853371, Q);
    Horner4(7, 888859, 1428853371, 0, 1255612365, 0, 504066171, 1, 21925355, 0, 535044134, Q);
  }

  lemma PowerQ331()
    ensures PowMod(7, 6487866, Q) == 1761855083
  {
    hide PowMod;
    PowModZero(7, Q);
    Horner4(7, 0, 1, 0, 1, 1, 7, 1, 343, 0, 117649, Q);
    Horner4(7, 6, 117649, 0, 956385319, 0, 470227511, 1, 2127448513, 0, 1098584363, Q);
    Horner4(7, 98, 1098584363, 1, 1204377315, 1, 1635339425, 1, 1199962732, 1, 269226311, Q);
    Horner4(7, 1583, 269226311, 1, 215396874, 1, 415825199, 1, 1550958642, 1, 174368244, Q);
    Horner4(7, 25343, 174368244, 0, 588020130, 0, 1989369407, 1, 641787029, 1, 305845094, Q);
    Horner4(7, 405491, 305845094, 1, 1202562539, 0, 759846237, 1, 164185298, 0, 1761855083, Q);
  }

  lemma PowerHalf()
    ensures PowMod(3, 288230376017494016, P) == 576460752034988032
  {
    hide PowMod;
    PowModZero(3, P);
    Horner4(3, 0, 1, 0, 1, 0, 1, 1, 3, 1, 27, P);
    Horner4(3, 3, 27, 1, 2187, 1, 14348907, 1, 617673396283947, 1, 549017648948068373, P);
    Horner4(3, 63, 549017648948068373, 1, 210449890591498049, 1, 49366627768047386, 1, 325580688737895966, 1,
            447960396683638343, P);
    Horner4(3, 1023, 447960396683638343, 1, 564602644608804512, 1, 170197041383030596, 1, 43528370441196208, 1,
            258554939845675018, P);
    Horner4(3, 16383, 258554939845675018, 1, 36797523959470537, 1, 207324383587556749, 1, 530440619552535031, 1,
            554014290887075975, P);
    Horner4(3, 262143, 554014290887075975, 1, 94830146463801765, 1, 484904038773476815, 1, 406789296359122083, 1,
            282711572947231261, P);
    Horner4(3, 4194303, 282711572947231261, 1, 118300520109294583, 1, 137305795611359454, 1, 337704206294272887, 1,
            362380489121646337, P);
    Horner4(3, 67108863, 362380489121646337, 1, 422654044903861904, 1, 181243979864488600, 1, 374774356373034713, 1,
            164642655380368303, P);
    Horner4(3, 1073741823, 164642655380368303, 1, 517983945081617742, 0, 533420581927523853, 0, 362972295418375361, 0,
            500699160934997691, P);
    Horner4(3, 17179869176, 500699160934997691, 0, 45453840632263145, 0, 85965707800789856, 0, 396801509556693794, 0,
            172670535743541716, P);
    Horner4(3, 274877906816, 172670535743541716, 0, 151102545060973087, 0, 286337473228062279, 0, 310715145478642262,
            0, 227933704484323948, P);
    Horner4(3, 4398046509056, 227933704484323948, 0, 473439763986359005, 0, 118370558076756930, 0, 324422809951585202,
            0, 224586803773508990, P);
    Horner4(3, 70368744144896, 224586803773508990, 0, 44913086984134633, 0, 505497583123780422, 0, 415043560090931363,
            0, 265706621169764663, P);
    Horner4(3, 1125899906318336, 265706621169764663, 0, 244914290221009159, 0, 42838395411273611, 0,
            436746194301221823, 0, 407629651764036736, P);
    Horner4(3, 18014398501093376, 407629651764036736, 0, 60520383360433372, 0, 294454818469698706, 0,
            247846390439392025, 0, 576460752034988032, P);
  }

  lemma PowerCofactor()
    ensures PowMod(3, 268435456, P) == 543731939593465800
  {
    hide PowMod;
    PowModZero(3, P);
    Horner4(3, 0, 1, 0, 1, 0, 1, 0, 1, 1, 3, P);
    Horner4(3, 1, 3, 0, 9, 0, 81, 0, 6561, 0, 43046721, P);
    Horner4(3, 16, 43046721, 0, 1853020188851841, 0, 494131442774229053, 0, 54888919739506114, 0, 148099883304142158,
            P);
    Horner4(3, 256, 148099883304142158, 0, 400281314178699865, 0, 190959685980938963, 0, 540886429756437470, 0,
            510591124149091788, P);
    Horner4(3, 4096, 510591124149091788, 0, 130585111323588624, 0, 199204067502037021, 0, 110392571878411611, 0,
            45512398727682214, P);
    Horner4(3, 65536, 45512398727682214, 0, 438400354587629027, 0, 509121368591251859, 0, 284490439391405295, 0,
            301790612250454379, P);
    Horner4(3, 1048576, 301790612250454379, 0, 67446385007390183, 0, 271673966806705750, 0, 354901560327883749, 0,
            411917386834078362, P);
    Horner4(3, 16777216, 411917386834078362, 0, 436651866847830628, 0, 510680715329950978, 0, 115040630641609646, 0,
            543731939593465800, P);
  }


  lemma QIsPrime()
    ensures Prime(Q)
  {
    hide PowMod;
    PowerQ2();
    PowModAdd(7, (Q - 1) / 2, (Q - 1) / 2, Q);
    forall s | 2 <= s ensures Survives(7, Q, s) {
      if (Q - 1) % s == 0 && PowMod(7, (Q - 1) / s, Q) == 1 { NoQuotientOfQ(s); }
    }
    GeneratorMakesPrime(7, Q);
  }

  lemma NoQuotientOfQ(s: nat)
    requires s >= 2 && (Q - 1) % s == 0
    ensures PowMod(7, (Q - 1) / s, Q) != 1
  {
    hide PowMod, Prime;
    if PowMod(7, (Q - 1) / s, Q) == 1 {
      FactorOfQ(s);
      PowerQ2();
      PowerQ3();
      PowerQ7();
      PowerQ11();
      PowerQ31();
      PowerQ151();
      PowerQ331();
      var f := if s % 2 == 0 then 2 else if s % 3 == 0 then 3 else if s % 7 == 0 then 7 else if s % 11 == 0 then 11
               else if s % 31 == 0 then 31 else if s % 151 == 0 then 151 else 331;
      KilledAt(7, Q, s, f);
    }
  }

  // An odd divisor of 2^k * x divides x.
  lemma {:induction false} OddPart(s: nat, k: nat, x: nat)
    requires s >= 1 && s % 2 != 0 && (Pow2(k) * x) % s == 0
    ensures x % s == 0
  {
    if k != 0 {
      SmallPrimes();
      Gauss(s, 2, Pow2(k - 1) * x);
      OddPart(s, k - 1, x);
    }
  }

  lemma CofactorOfP()
    ensures Pow2(28) * Q == P - 1
  {
    assert Pow2(7) == 128;
    Pow2Add(7, 7);
    Pow2Add(14, 14);
  }

  lemma NoQuotientOfP(s: nat)
    requires s >= 2 && (P - 1) % s == 0
    ensures PowMod(3, (P - 1) / s, P) != 1
  {
    hide PowMod, Prime, Pow2;
    if PowMod(3, (P - 1) / s, P) == 1 {
      PowerHalf();
      PowerCofactor();
      if s % 2 == 0 {
        KilledAt(3, P, s, 2);
      } else {
        CofactorOfP();
        OddPart(s, 28, Q);
        QIsPrime();
        DivisorOfPrime(Q, s);
      }
    }
  }

  /** 3 has order p - 1 modulo p. */
  lemma ThreeGenerates()
    ensures Generates(3, P)
  {
    hide PowMod;
    PowerHalf();
    PowModAdd(3, (P - 1) / 2, (P - 1) / 2, P);
    forall s | 2 <= s ensures Survives(3, P, s) {
      if (P - 1) % s == 0 { NoQuotientOfP(s); }
    }
  }

  /** The modulus is prime. */
  lemma PIsPrime()
    ensures Prime(P)
  {
    ThreeGenerates();
    GeneratorMakesPrime(3, P);
  }
}
